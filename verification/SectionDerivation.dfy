/**
 * Cutting an imported conversation into sections
 * (`#deriveSectionsFromDatabase`, apps/local-core/src/conversation-import-service.ts).
 *
 * Messages are numbered 0, 1, 2, … by the importer, so a message's `seq` is its
 * index here. The service makes one pass with an accumulator; `Derive` is the
 * same partition said through `Split`, which looks only at the messages.
 */
module SectionDerivation {
  import opened Wrappers

  datatype Role = User | Assistant | Tool | System | Event

  /** `length` is the text's length, `refs` the number of file references, `headline` its compacted first line. */
  datatype Message = Message(role: Role, length: nat, refs: nat, headline: string)

  datatype Kind = Turn | Instruction | ToolCluster | LongMessage

  datatype Section = Section(ordinal: nat, kind: Kind, title: string, startSeq: nat, endSeq: nat)

  const MAX_MESSAGES := 200
  const MAX_CHARS := 80_000
  const DENSE_MESSAGES := 20
  const DENSE_REFS := 8

  // ---------- what a range of messages [lo, hi) holds ----------

  function Chars(ms: seq<Message>, lo: nat, hi: nat): nat
    requires hi <= |ms|
  {
    if hi <= lo then 0 else Chars(ms, lo, hi - 1) + ms[hi - 1].length
  }

  function Refs(ms: seq<Message>, lo: nat, hi: nat): nat
    requires hi <= |ms|
  {
    if hi <= lo then 0 else Refs(ms, lo, hi - 1) + ms[hi - 1].refs
  }

  function FirstUser(ms: seq<Message>, lo: nat, hi: nat): Option<Message>
    requires hi <= |ms|
  {
    if hi <= lo then None
    else
      var before := FirstUser(ms, lo, hi - 1);
      if before.None? && ms[hi - 1].role.User? then Some(ms[hi - 1]) else before
  }

  function FirstNonTool(ms: seq<Message>, lo: nat, hi: nat): Option<Message>
    requires hi <= |ms|
  {
    if hi <= lo then None
    else
      var before := FirstNonTool(ms, lo, hi - 1);
      if before.None? && !ms[hi - 1].role.Tool? then Some(ms[hi - 1]) else before
  }

  predicate HasUser(ms: seq<Message>, lo: nat, hi: nat)
    requires hi <= |ms|
  {
    FirstUser(ms, lo, hi).Some?
  }

  predicate AllTools(ms: seq<Message>, lo: nat, hi: nat)
    requires hi <= |ms|
  {
    FirstNonTool(ms, lo, hi).None?
  }

  /** The message that names the range: its first user message, else its first non-tool one, else its first. */
  function LeadOf(ms: seq<Message>, lo: nat, hi: nat): Message
    requires lo < hi <= |ms|
  {
    if HasUser(ms, lo, hi) then FirstUser(ms, lo, hi).value
    else if !AllTools(ms, lo, hi) then FirstNonTool(ms, lo, hi).value
    else ms[lo]
  }

  /** `FirstUser` finds the user message with the smallest index, and nothing only if there is none. */
  lemma {:induction false} FirstUserIsFirst(ms: seq<Message>, lo: nat, hi: nat, p: nat)
    requires lo <= p < hi <= |ms| && ms[p].role.User?
    ensures exists i :: lo <= i <= p && ms[i].role.User? && FirstUser(ms, lo, hi) == Some(ms[i])
                        && forall j :: lo <= j < i ==> !ms[j].role.User?
  {
    if p < hi - 1 {
      FirstUserIsFirst(ms, lo, hi - 1, p);
    } else if FirstUser(ms, lo, p).Some? {
      var q := UserIndex(ms, lo, p);
      FirstUserIsFirst(ms, lo, p, q);
    } else {
      forall j | lo <= j < p ensures !ms[j].role.User? {
        if ms[j].role.User? { FirstUserIsFirst(ms, lo, p, j); }
      }
    }
  }

  lemma {:induction false} UserIndex(ms: seq<Message>, lo: nat, hi: nat) returns (q: nat)
    requires hi <= |ms| && HasUser(ms, lo, hi)
    ensures lo <= q < hi && ms[q].role.User?
  {
    if HasUser(ms, lo, hi - 1) {
      q := UserIndex(ms, lo, hi - 1);
    } else {
      q := hi - 1;
    }
  }

  function Decimal(n: nat): string {
    if n < 10 then ["0123456789"[n]] else Decimal(n / 10) + ["0123456789"[n % 10]]
  }

  function KindOf(ms: seq<Message>, lo: nat, hi: nat): Kind
    requires lo < hi <= |ms|
  {
    if HasUser(ms, lo, hi) then Instruction
    else if AllTools(ms, lo, hi) then ToolCluster
    else if Chars(ms, lo, hi) > MAX_CHARS then LongMessage
    else Turn
  }

  function TitleFor(headline: string, n: nat): string {
    if headline != "" then headline else "第 " + Decimal(n + 1) + " 段"
  }

  function MakeSection(ms: seq<Message>, n: nat, lo: nat, hi: nat): Section
    requires lo < hi <= |ms|
  {
    Section(n, KindOf(ms, lo, hi), TitleFor(LeadOf(ms, lo, hi).headline, n), lo, hi - 1)
  }

  // ---------- the partition ----------

  /** Message `p` may not stay in a section that began at `start`. */
  predicate Split(ms: seq<Message>, start: nat, p: nat)
    requires start < p < |ms|
  {
    || (ms[p].role.User? && HasUser(ms, 0, p))
    || (!HasUser(ms, 0, |ms|) && p - start >= MAX_MESSAGES)
    || (!HasUser(ms, 0, |ms|) && Chars(ms, start, p) + ms[p].length > MAX_CHARS)
    || (p - start >= DENSE_MESSAGES && Refs(ms, start, p) >= DENSE_REFS && ms[p].refs > 0)
  }

  /** Where the sections of the first `n` messages begin. */
  function Starts(ms: seq<Message>, n: nat): (starts: seq<nat>)
    requires n <= |ms|
    ensures n == 0 <==> starts == []
    ensures AreStarts(starts, n)
    ensures n > 0 ==> starts[0] == 0
  {
    if n == 0 then []
    else if n == 1 then [0]
    else
      var before := Starts(ms, n - 1);
      if Split(ms, before[|before| - 1], n - 1) then before + [n - 1] else before
  }

  /** The last message of section `i` when the sections of the first `n` messages begin at `starts`. */
  function EndOf(starts: seq<nat>, n: nat, i: nat): int
    requires i < |starts|
  {
    (if i + 1 < |starts| then starts[i + 1] else n) - 1
  }

  ghost predicate AreStarts(starts: seq<nat>, n: nat) {
    && (forall i :: 0 <= i < |starts| ==> starts[i] < n)
    && (forall i, j :: 0 <= i < j < |starts| ==> starts[i] < starts[j])
  }

  lemma FrontEnds(starts: seq<nat>, n: nat)
    requires AreStarts(starts, n) && starts != []
    ensures var k := |starts| - 1;
            && AreStarts(starts[..k], starts[k])
            && forall i :: 0 <= i < k ==>
               starts[..k][i] == starts[i] && EndOf(starts[..k], starts[k], i) == EndOf(starts, n, i)
  {
  }

  function SectionsOf(ms: seq<Message>, starts: seq<nat>, n: nat): (sections: seq<Section>)
    requires n <= |ms| && AreStarts(starts, n)
    ensures |sections| == |starts|
    ensures forall i :: 0 <= i < |starts| ==>
              sections[i].ordinal == i && sections[i].startSeq == starts[i] && sections[i].endSeq == EndOf(starts, n, i)
  {
    if starts == [] then []
    else
      var k := |starts| - 1;
      FrontEnds(starts, n);
      SectionsOf(ms, starts[..k], starts[k]) + [MakeSection(ms, k, starts[k], n)]
  }

  function Derive(ms: seq<Message>): seq<Section> {
    SectionsOf(ms, Starts(ms, |ms|), |ms|)
  }

  /** Kind and title of every derived section are those of its own range. */
  lemma {:induction false} DerivedKindAndTitle(ms: seq<Message>, starts: seq<nat>, n: nat, i: nat)
    requires n <= |ms| && AreStarts(starts, n) && i < |starts|
    ensures SectionsOf(ms, starts, n)[i] == MakeSection(ms, i, starts[i], EndOf(starts, n, i) + 1)
  {
    var k := |starts| - 1;
    FrontEnds(starts, n);
    SectionAt(ms, starts, n, i);
    if i < k { DerivedKindAndTitle(ms, starts[..k], starts[k], i); }
  }

  lemma SectionAt(ms: seq<Message>, starts: seq<nat>, n: nat, i: nat)
    requires n <= |ms| && AreStarts(starts, n) && i < |starts|
    ensures var k := |starts| - 1;
            && AreStarts(starts[..k], starts[k])
            && SectionsOf(ms, starts, n)[i] ==
               if i < k then SectionsOf(ms, starts[..k], starts[k])[i] else MakeSection(ms, k, starts[k], n)
  {
    FrontEnds(starts, n);
  }

  lemma StartsStep(ms: seq<Message>, n: nat)
    requires 0 < n < |ms|
    ensures var before := Starts(ms, n);
            Starts(ms, n + 1) == if Split(ms, before[|before| - 1], n) then before + [n] else before
  {
  }

  // ---------- what a section is called ----------

  /** Message `p` is the first of the range that is no tool message. */
  ghost predicate IsFirstNonTool(ms: seq<Message>, lo: nat, hi: nat, p: nat) {
    lo <= p < hi <= |ms| && !ms[p].role.Tool? && forall j :: lo <= j < p ==> ms[j].role.Tool?
  }

  ghost predicate IsFirstUser(ms: seq<Message>, lo: nat, hi: nat, p: nat) {
    lo <= p < hi <= |ms| && ms[p].role.User? && forall j :: lo <= j < p ==> !ms[j].role.User?
  }

  lemma {:induction false} FirstNonToolIsFirst(ms: seq<Message>, lo: nat, hi: nat)
    requires hi <= |ms|
    ensures FirstNonTool(ms, lo, hi).None? <==> forall j :: lo <= j < hi ==> ms[j].role.Tool?
    ensures forall p: nat :: IsFirstNonTool(ms, lo, hi, p) ==> FirstNonTool(ms, lo, hi) == Some(ms[p])
  {
    if lo < hi {
      FirstNonToolIsFirst(ms, lo, hi - 1);
      forall p: nat | IsFirstNonTool(ms, lo, hi, p) ensures FirstNonTool(ms, lo, hi) == Some(ms[p]) {
        if p < hi - 1 { assert IsFirstNonTool(ms, lo, hi - 1, p); }
      }
    }
  }

  lemma {:induction false} FirstUserIsTheFirst(ms: seq<Message>, lo: nat, hi: nat)
    requires hi <= |ms|
    ensures FirstUser(ms, lo, hi).None? <==> forall j :: lo <= j < hi ==> !ms[j].role.User?
    ensures forall p: nat :: IsFirstUser(ms, lo, hi, p) ==> FirstUser(ms, lo, hi) == Some(ms[p])
  {
    if lo < hi {
      FirstUserIsTheFirst(ms, lo, hi - 1);
      forall p: nat | IsFirstUser(ms, lo, hi, p) ensures FirstUser(ms, lo, hi) == Some(ms[p]) {
        if p < hi - 1 { assert IsFirstUser(ms, lo, hi - 1, p); }
      }
    }
  }

  /** The number that a decimal numeral stands for. */
  function Value(s: string): nat
    requires IsNumeral(s)
  {
    if s == [] then 0
    else
      var front, last := s[..|s| - 1], s[|s| - 1];
      assert last in s && forall c :: c in front ==> c in s;
      10 * Value(front) + (last as int - '0' as int)
  }

  predicate IsNumeral(s: string) { forall c :: c in s ==> '0' <= c <= '9' }

  lemma {:induction false} DecimalStandsFor(n: nat)
    ensures IsNumeral(Decimal(n)) && Value(Decimal(n)) == n && |Decimal(n)| > 0
    ensures n > 0 ==> Decimal(n)[0] != '0'
  {
    if n >= 10 {
      DecimalStandsFor(n / 10);
      var front, s := Decimal(n / 10), Decimal(n);
      assert s[..|s| - 1] == front;
      DigitStandsFor(n % 10);
    } else {
      DigitStandsFor(n);
      assert Decimal(n)[..0] == "";
    }
  }

  lemma DigitStandsFor(d: nat)
    requires d < 10
    ensures "0123456789"[d] as int == '0' as int + d
  {
  }

  /** The characters of a range are those of its parts together. */
  lemma {:induction false} CharsAdd(ms: seq<Message>, lo: nat, mid: nat, hi: nat)
    requires lo <= mid <= hi <= |ms|
    ensures Chars(ms, lo, hi) == Chars(ms, lo, mid) + Chars(ms, mid, hi)
    ensures Refs(ms, lo, hi) == Refs(ms, lo, mid) + Refs(ms, mid, hi)
    ensures hi == lo + 1 ==> Chars(ms, lo, hi) == ms[lo].length && Refs(ms, lo, hi) == ms[lo].refs
  {
    if mid < hi { CharsAdd(ms, lo, mid, hi - 1); }
  }

  /**
   * A section with a user message is an instruction and is called after the first of them; one of tool messages only is
   * a tool cluster and is called after its first message; any other is called after its first message that is no tool
   * message, and is a long message if it has more than 80,000 characters. Where that message has no headline, the
   * section is called by its number, counted from one.
   */
  lemma SectionIsCalled(ms: seq<Message>, i: nat, p: nat)
    requires i < |Derive(ms)|
    ensures Derive(ms)[i].startSeq <= Derive(ms)[i].endSeq < |ms| && IsNamed(ms, Derive(ms)[i], i, p)
  {
    SectionIsMade(ms, i);
    MadeIsNamed(ms, i, Derive(ms)[i].startSeq, Derive(ms)[i].endSeq + 1, p);
  }

  /** Kind and title fit the messages of the section; `p` is any of them. */
  ghost predicate IsNamed(ms: seq<Message>, s: Section, i: nat, p: nat)
    requires s.startSeq <= s.endSeq < |ms|
  {
    && (s.kind.Instruction? <==> exists q :: s.startSeq <= q <= s.endSeq && ms[q].role.User?)
    && (s.kind.ToolCluster? <==> forall q :: s.startSeq <= q <= s.endSeq ==> ms[q].role.Tool?)
    && (s.kind.LongMessage? ==> Chars(ms, s.startSeq, s.endSeq + 1) > 80_000)
    && (s.kind.Turn? ==> Chars(ms, s.startSeq, s.endSeq + 1) <= 80_000)
    && (s.kind.Instruction? && IsFirstUser(ms, s.startSeq, s.endSeq + 1, p) ==> IsCalled(s.title, ms[p], i))
    && (s.kind.ToolCluster? && p == s.startSeq ==> IsCalled(s.title, ms[p], i))
    && ((s.kind.LongMessage? || s.kind.Turn?) && IsFirstNonTool(ms, s.startSeq, s.endSeq + 1, p) ==>
       IsCalled(s.title, ms[p], i))
  }

  lemma MadeIsNamed(ms: seq<Message>, i: nat, lo: nat, hi: nat, p: nat)
    requires lo < hi <= |ms|
    ensures IsNamed(ms, MakeSection(ms, i, lo, hi), i, p)
  {
    KindOfRange(ms, lo, hi);
    TitleOfRange(ms, i, lo, hi, p);
  }

  lemma SectionIsMade(ms: seq<Message>, i: nat)
    requires i < |Derive(ms)|
    ensures var s := Derive(ms)[i];
            s.startSeq <= s.endSeq < |ms| && s == MakeSection(ms, i, s.startSeq, s.endSeq + 1)
  {
    DeriveIsPartition(ms);
    LiesWithin(Derive(ms), |ms|, i);
    DerivedKindAndTitle(ms, Starts(ms, |ms|), |ms|, i);
  }

  lemma LiesWithin(sections: seq<Section>, n: nat, i: nat)
    requires IsPartition(sections, n) && i < |sections|
    ensures sections[i].startSeq <= sections[i].endSeq < n
  {
    if i < |sections| - 1 { PartitionOrdered(sections, n, i, |sections| - 1); }
  }

  lemma KindOfRange(ms: seq<Message>, lo: nat, hi: nat)
    requires lo < hi <= |ms|
    ensures var kind := KindOf(ms, lo, hi);
            && (kind.Instruction? <==> exists q :: lo <= q <= hi - 1 && ms[q].role.User?)
            && (kind.ToolCluster? <==> forall q :: lo <= q <= hi - 1 ==> ms[q].role.Tool?)
            && (kind.LongMessage? ==> Chars(ms, lo, hi) > 80_000) && (kind.Turn? ==> Chars(ms, lo, hi) <= 80_000)
  {
    FirstNonToolIsFirst(ms, lo, hi);
    FirstUserIsTheFirst(ms, lo, hi);
    if forall q :: lo <= q <= hi - 1 ==> ms[q].role.Tool? { assert ms[lo].role.Tool?; }
  }

  lemma TitleOfRange(ms: seq<Message>, i: nat, lo: nat, hi: nat, p: nat)
    requires lo < hi <= |ms|
    ensures var kind, title := KindOf(ms, lo, hi), TitleFor(LeadOf(ms, lo, hi).headline, i);
            && (kind.Instruction? && IsFirstUser(ms, lo, hi, p) ==> IsCalled(title, ms[p], i))
            && (kind.ToolCluster? && p == lo ==> IsCalled(title, ms[p], i))
            && ((kind.LongMessage? || kind.Turn?) && IsFirstNonTool(ms, lo, hi, p) ==> IsCalled(title, ms[p], i))
  {
    FirstNonToolIsFirst(ms, lo, hi);
    FirstUserIsTheFirst(ms, lo, hi);
    if p < |ms| { TitleIsCalled(ms[p], i); }
  }

  lemma TitleIsCalled(m: Message, i: nat)
    ensures IsCalled(TitleFor(m.headline, i), m, i)
  {
    DecimalStandsFor(i + 1);
    var number := Decimal(i + 1);
    assert NumberOf(number) == "第 " + number + " 段";
  }

  /** The title is the headline of the message, or the ordinal that stands for `i + 1`. */
  ghost predicate IsCalled(title: string, m: Message, i: nat) {
    if m.headline != "" then title == m.headline
    else
      exists number: string :: title == NumberOf(number) && IsNumeral(number) && number != "" && Value(number) == i + 1
  }

  function NumberOf(number: string): string { "第 " + number + " 段" }

  // ---------- the one-pass accumulator ----------

  datatype Accumulator = Accumulator(
    startSeq: nat, endSeq: nat, count: nat, totalChars: nat, fileReferenceCount: nat, allTools: bool,
    first: Message, firstUser: Option<Message>, firstNonTool: Option<Message>)

  /** The accumulator sums up exactly the messages [startSeq, hi). */
  ghost predicate Sums(acc: Accumulator, ms: seq<Message>, hi: nat) {
    && acc.startSeq < hi <= |ms|
    && acc == Accumulator(acc.startSeq, hi - 1, hi - acc.startSeq,
                          Chars(ms, acc.startSeq, hi), Refs(ms, acc.startSeq, hi), AllTools(ms, acc.startSeq, hi),
                          ms[acc.startSeq], FirstUser(ms, acc.startSeq, hi), FirstNonTool(ms, acc.startSeq, hi))
  }

  function Lead(acc: Accumulator): Message {
    if acc.firstUser.Some? then acc.firstUser.value
    else if acc.firstNonTool.Some? then acc.firstNonTool.value
    else acc.first
  }

  /** `finalize`: the section an accumulator closes into. */
  function Finalize(acc: Accumulator, n: nat): Section {
    var lead := Lead(acc);
    Section(n,
            if lead.role.User? then Instruction
            else if acc.allTools then ToolCluster
            else if acc.totalChars > MAX_CHARS then LongMessage
            else Turn,
            TitleFor(lead.headline, n), acc.startSeq, acc.endSeq)
  }

  lemma {:induction false} FirstOfRole(ms: seq<Message>, lo: nat, hi: nat)
    requires hi <= |ms|
    ensures HasUser(ms, lo, hi) ==> FirstUser(ms, lo, hi).value.role.User? && !AllTools(ms, lo, hi)
    ensures !AllTools(ms, lo, hi) ==> !FirstNonTool(ms, lo, hi).value.role.Tool?
    ensures !HasUser(ms, lo, hi) && !AllTools(ms, lo, hi) ==> !FirstNonTool(ms, lo, hi).value.role.User?
  {
    if lo < hi { FirstOfRole(ms, lo, hi - 1); }
  }

  lemma {:induction false} ToolsOnly(ms: seq<Message>, lo: nat, hi: nat, p: nat)
    requires lo <= p < hi <= |ms| && AllTools(ms, lo, hi)
    ensures ms[p].role.Tool?
  {
    if p < hi - 1 { ToolsOnly(ms, lo, hi - 1, p); }
  }

  lemma FinalizeMakesSection(acc: Accumulator, ms: seq<Message>, hi: nat, n: nat)
    requires Sums(acc, ms, hi)
    ensures Finalize(acc, n) == MakeSection(ms, n, acc.startSeq, hi)
  {
    FirstOfRole(ms, acc.startSeq, hi);
    if AllTools(ms, acc.startSeq, hi) { ToolsOnly(ms, acc.startSeq, hi, acc.startSeq); }
  }

  function Fresh(seqNo: nat, m: Message): Accumulator {
    Accumulator(seqNo, seqNo, 0, 0, 0, true, m, None, None)
  }

  function Add(acc: Accumulator, seqNo: nat, m: Message): Accumulator {
    acc.(endSeq := seqNo, count := acc.count + 1, totalChars := acc.totalChars + m.length,
         fileReferenceCount := acc.fileReferenceCount + m.refs,
         allTools := acc.allTools && m.role.Tool?,
         firstNonTool := if acc.firstNonTool.None? && !m.role.Tool? then Some(m) else acc.firstNonTool,
         firstUser := if acc.firstUser.None? && m.role.User? then Some(m) else acc.firstUser)
  }

  lemma AddToFresh(ms: seq<Message>, p: nat)
    requires p < |ms|
    ensures Sums(Add(Fresh(p, ms[p]), p, ms[p]), ms, p + 1)
  {
    assert Chars(ms, p, p) == 0 && Refs(ms, p, p) == 0 && FirstUser(ms, p, p).None? && FirstNonTool(ms, p, p).None?;
  }

  lemma AddExtends(acc: Accumulator, ms: seq<Message>, p: nat)
    requires p < |ms| && Sums(acc, ms, p)
    ensures Sums(Add(acc, p, ms[p]), ms, p + 1)
  {
  }

  /** After `p` messages: the closed sections, and the open one in the accumulator. */
  ghost predicate Scanned(ms: seq<Message>, p: nat, sections: seq<Section>, current: Option<Accumulator>) {
    p <= |ms| &&
    match current
    case None => p == 0 && sections == []
    case Some(acc) =>
      var starts := Starts(ms, p);
      && Sums(acc, ms, p)
      && acc.startSeq == starts[|starts| - 1]
      && sections == SectionsOf(ms, starts[..|starts| - 1], acc.startSeq)
  }

  lemma ScanSplits(ms: seq<Message>, p: nat, sections: seq<Section>, acc: Accumulator)
    requires p < |ms| && Scanned(ms, p, sections, Some(acc)) && Split(ms, acc.startSeq, p)
    ensures Scanned(ms, p + 1, sections + [Finalize(acc, |sections|)], Some(Add(Fresh(p, ms[p]), p, ms[p])))
  {
    var starts := Starts(ms, p);
    StartsStep(ms, p);
    AddToFresh(ms, p);
    FinalizeMakesSection(acc, ms, p, |sections|);
    assert Starts(ms, p + 1)[..|starts|] == starts;
  }

  lemma ScanContinues(ms: seq<Message>, p: nat, sections: seq<Section>, acc: Accumulator)
    requires p < |ms| && Scanned(ms, p, sections, Some(acc)) && !Split(ms, acc.startSeq, p)
    ensures Scanned(ms, p + 1, sections, Some(Add(acc, p, ms[p])))
  {
    StartsStep(ms, p);
    AddExtends(acc, ms, p);
  }

  lemma ScanBegins(ms: seq<Message>)
    requires |ms| > 0
    ensures Scanned(ms, 1, [], Some(Add(Fresh(0, ms[0]), 0, ms[0])))
  {
    AddToFresh(ms, 0);
  }

  lemma ScanEnds(ms: seq<Message>, sections: seq<Section>, acc: Accumulator)
    requires Scanned(ms, |ms|, sections, Some(acc))
    ensures sections + [Finalize(acc, |sections|)] == Derive(ms)
  {
    FinalizeMakesSection(acc, ms, |ms|, |sections|);
  }

  /** The service's four tests: a second user message, too many messages, too much text, too many file references. */
  predicate MustSplit(current: Option<Accumulator>, m: Message, seenUser: bool, userCount: nat) {
    || (m.role.User? && seenUser)
    || (userCount == 0 && current.Some? && current.value.count >= MAX_MESSAGES)
    || (userCount == 0 && current.Some? && current.value.count > 0 && current.value.totalChars + m.length > MAX_CHARS)
    || (current.Some? && current.value.count >= DENSE_MESSAGES && current.value.fileReferenceCount >= DENSE_REFS
       && m.refs > 0)
  }

  /** One message: close the open section if a test says so, open a new one if none is open, add the message. */
  lemma ScanStep(ms: seq<Message>, p: nat, seenUser: bool, userCount: nat,
                 sections: seq<Section>, current: Option<Accumulator>, sections': seq<Section>, current': Accumulator)
    requires p < |ms| && Scanned(ms, p, sections, current)
    requires seenUser <==> HasUser(ms, 0, p)
    requires userCount == 0 <==> !HasUser(ms, 0, |ms|)
    requires if current.Some? && MustSplit(current, ms[p], seenUser, userCount)
             then sections' == sections + [Finalize(current.value, |sections|)]
                 && current' == Add(Fresh(p, ms[p]), p, ms[p])
             else
               sections' == sections
                   && current' == Add(if current.Some? then current.value else Fresh(p, ms[p]), p, ms[p])
    ensures Scanned(ms, p + 1, sections', Some(current'))
  {
    match current
    case None => ScanBegins(ms);
    case Some(acc) =>
      assert MustSplit(current, ms[p], seenUser, userCount) <==> Split(ms, acc.startSeq, p);
      if Split(ms, acc.startSeq, p) {
        ScanSplits(ms, p, sections, acc);
      } else {
        ScanContinues(ms, p, sections, acc);
      }
  }

  /** The service's single pass computes `Derive`. */
  method DeriveSections(ms: seq<Message>) returns (sections: seq<Section>)
    ensures sections == Derive(ms)
  {
    var userCount := CountUsers(ms);
    sections := [];
    var current: Option<Accumulator> := None;
    var seenUser := false;
    for p := 0 to |ms|
      invariant seenUser <==> HasUser(ms, 0, p)
      invariant current.Some? <==> p > 0
      invariant Scanned(ms, p, sections, current)
    {
      var m := ms[p];
      ghost var closed, open := sections, current;
      if MustSplit(current, m, seenUser, userCount) && current.Some? {
        sections := sections + [Finalize(current.value, |sections|)];
        current := None;
      }
      current := Some(Add(if current.Some? then current.value else Fresh(p, m), p, m));
      ScanStep(ms, p, seenUser, userCount, closed, open, sections, current.value);
      seenUser := seenUser || m.role.User?;
    }
    if current.Some? && current.value.count > 0 {
      ScanEnds(ms, sections, current.value);
      sections := sections + [Finalize(current.value, |sections|)];
    }
  }

  method CountUsers(ms: seq<Message>) returns (count: nat)
    ensures count == 0 <==> !HasUser(ms, 0, |ms|)
  {
    count := 0;
    for i := 0 to |ms|
      invariant count == 0 <==> !HasUser(ms, 0, i)
    {
      if ms[i].role.User? { count := count + 1; }
    }
  }

  // ---------- what the partition guarantees ----------

  /** Section `p`'s range contains message `i`. */
  predicate Holds(s: Section, i: nat) { s.startSeq <= i <= s.endSeq }

  /** The ranges are numbered from 0, contiguous, non-empty and cover every message. */
  ghost predicate IsPartition(sections: seq<Section>, n: nat) {
    && (n == 0 <==> sections == [])
    && (forall i :: 0 <= i < |sections| ==> sections[i].ordinal == i && sections[i].startSeq <= sections[i].endSeq)
    && (n > 0 ==> sections[0].startSeq == 0 && sections[|sections| - 1].endSeq == n - 1)
    && (forall i :: 0 < i < |sections| ==> sections[i].startSeq == sections[i - 1].endSeq + 1)
  }

  lemma DeriveIsPartition(ms: seq<Message>)
    ensures IsPartition(Derive(ms), |ms|)
  {
  }

  lemma {:induction false} PartitionOrdered(sections: seq<Section>, n: nat, i: nat, j: nat)
    requires IsPartition(sections, n) && i < j < |sections|
    ensures sections[i].endSeq < sections[j].startSeq
  {
    if i + 1 < j {
      PartitionOrdered(sections, n, i, j - 1);
    }
  }

  /** Every message lies in exactly one section. */
  lemma PartitionCoversOnce(sections: seq<Section>, n: nat, p: nat)
    requires IsPartition(sections, n) && p < n
    ensures exists i :: 0 <= i < |sections| && Holds(sections[i], p)
    ensures forall i, j ::
            0 <= i < |sections| && 0 <= j < |sections| && Holds(sections[i], p) && Holds(sections[j], p) ==> i == j
  {
    var i := 0;
    while sections[i].endSeq < p
      invariant 0 <= i < |sections| && sections[i].startSeq <= p
    {
      i := i + 1;
    }
    assert Holds(sections[i], p);
    forall i, j | 0 <= i < j < |sections| ensures !(Holds(sections[i], p) && Holds(sections[j], p)) {
      PartitionOrdered(sections, n, i, j);
    }
  }

  /** A message that starts no section was not split off, and one that does was split off the section before. */
  lemma {:induction false} StartsAreExactlyTheSplits(ms: seq<Message>, n: nat, i: nat, p: nat)
    requires n <= |ms| && i < |Starts(ms, n)|
    requires Starts(ms, n)[i] < p < n && (i + 1 < |Starts(ms, n)| ==> p <= Starts(ms, n)[i + 1])
    ensures Split(ms, Starts(ms, n)[i], p) <==> i + 1 < |Starts(ms, n)| && p == Starts(ms, n)[i + 1]
  {
    if n > 1 {
      var before := Starts(ms, n - 1);
      if i < |before| && p < n - 1 {
        StartsAreExactlyTheSplits(ms, n - 1, i, p);
      }
    }
  }

  lemma SectionSplits(ms: seq<Message>, i: nat, p: nat)
    requires i < |Derive(ms)| && Derive(ms)[i].startSeq < p < |ms|
    requires p <= Derive(ms)[i].endSeq + 1
    ensures Split(ms, Derive(ms)[i].startSeq, p) <==> p == Derive(ms)[i].endSeq + 1
  {
    StartsAreExactlyTheSplits(ms, |ms|, i, p);
  }

  /** Any partition cut exactly at the splits has the derived boundaries: the rules leave no freedom. */
  lemma {:induction false} PartitionBySplitsIsUnique(ms: seq<Message>, other: seq<Section>, i: nat)
    requires IsPartition(other, |ms|) && i < |other| && i < |Derive(ms)|
    requires forall k, p :: 0 <= k < |other| && other[k].startSeq < p < |ms| && p <= other[k].endSeq + 1 ==>
               (Split(ms, other[k].startSeq, p) <==> p == other[k].endSeq + 1)
    ensures other[i].startSeq == Derive(ms)[i].startSeq && other[i].endSeq == Derive(ms)[i].endSeq
  {
    var d := Derive(ms);
    DeriveIsPartition(ms);
    if i > 0 {
      PartitionBySplitsIsUnique(ms, other, i - 1);
    }
    assert other[i].startSeq == d[i].startSeq;
    if |other| - 1 > i { PartitionOrdered(other, |ms|, i, |other| - 1); }
    if |d| - 1 > i { PartitionOrdered(d, |ms|, i, |d| - 1); }
    if other[i].endSeq < d[i].endSeq {
      SectionSplits(ms, i, other[i].endSeq + 1);
    } else if d[i].endSeq < other[i].endSeq {
      SectionSplits(ms, i, d[i].endSeq + 1);
    }
  }

  /** A section holds at most one user message, and every user message after the first opens its section. */
  lemma UserMessagesOpenSections(ms: seq<Message>, i: nat, p: nat)
    requires i < |Derive(ms)| && Holds(Derive(ms)[i], p)
    requires p < |ms| && ms[p].role.User?
    ensures HasUser(ms, 0, p) ==> p == Derive(ms)[i].startSeq
    ensures forall q: nat :: Holds(Derive(ms)[i], q) && q < |ms| && ms[q].role.User? ==> q == p
  {
    var s := Derive(ms)[i];
    if p > s.startSeq { SectionSplits(ms, i, p); }
    forall q: nat | q < p && ms[q].role.User? { FirstUserIsFirst(ms, 0, p, q); }
    forall q: nat | Holds(s, q) && q < |ms| && ms[q].role.User? ensures q == p {
      if q > s.startSeq { SectionSplits(ms, i, q); }
      if p < q { FirstUserIsFirst(ms, 0, q, p); }
    }
  }

  /**
   * Without user messages a section has at most 200 messages, and at most 80,000 characters unless it is one message.
   */
  lemma UnattendedSectionsAreBounded(ms: seq<Message>, i: nat)
    requires !HasUser(ms, 0, |ms|) && i < |Derive(ms)|
    ensures var s := Derive(ms)[i];
            && s.endSeq < |ms|
            && s.endSeq + 1 - s.startSeq <= MAX_MESSAGES
            && (s.startSeq < s.endSeq ==> Chars(ms, s.startSeq, s.endSeq + 1) <= MAX_CHARS)
  {
    var s := Derive(ms)[i];
    DeriveIsPartition(ms);
    if i < |Derive(ms)| - 1 { PartitionOrdered(Derive(ms), |ms|, i, |Derive(ms)| - 1); }
    if s.startSeq < s.endSeq {
      SectionSplits(ms, i, s.endSeq);
    }
  }

  lemma {:induction false} RefsGrow(ms: seq<Message>, lo: nat, mid: nat, hi: nat)
    requires mid <= hi <= |ms|
    ensures Refs(ms, lo, mid) <= Refs(ms, lo, hi)
  {
    if mid < hi {
      RefsGrow(ms, lo, mid, hi - 1);
    }
  }

  /** Once a section has 20 messages and 8 references, no later message in it carries a reference. */
  lemma DenseSectionsTakeNoMoreReferences(ms: seq<Message>, i: nat, p: nat, q: nat)
    requires i < |Derive(ms)| && Holds(Derive(ms)[i], q) && q < |ms|
    requires Derive(ms)[i].startSeq + DENSE_MESSAGES <= p <= q
    requires Refs(ms, Derive(ms)[i].startSeq, p) >= DENSE_REFS
    ensures ms[q].refs == 0
  {
    SectionSplits(ms, i, q);
    RefsGrow(ms, Derive(ms)[i].startSeq, p, q);
  }
}
