/**
 * `parseISO8601Duration` (index.js): reads the time part of an ISO 8601 duration
 * (`PT[nH][nM][nS]`, the format with designators) and prints it as a clock string,
 * `H:MM:SS` when there are hours and `M:SS` otherwise; `""` when there is no `PT` at all.
 *
 * The regular expression `/PT(?:(\d+)H)?(?:(\d+)M)?(?:(\d+)S)?/` is modelled as a scanner:
 * the match starts at the first `PT`, and each optional group is taken exactly when the
 * maximal run of digits at the current position is followed by that group's designator.
 * `MatchSplit` below describes the same match declaratively, and the lemmas
 * `ParseMatchSplit` and `ParseHasMatchSplit` prove the two agree.
 */
module Duration {
  import opened Wrappers
  import opened Text

  /** Hours, minutes and seconds as read, never normalised (90 minutes stay 90 minutes). */
  datatype Hms = Hms(hours: nat, minutes: nat, seconds: nat)

  predicate PTAt(s: string, i: nat) {
    i + 1 < |s| && s[i] == 'P' && s[i + 1] == 'T'
  }

  predicate ContainsPT(s: string) {
    exists i: nat :: i < |s| && PTAt(s, i)
  }

  /** The first position at or after `from` where `PT` occurs. */
  function FindPT(s: string, from: nat): (r: Option<nat>)
    ensures r.Some? ==> from <= r.value && PTAt(s, r.value)
    ensures forall i: nat :: from <= i && (r.None? || i < r.value) ==> !PTAt(s, i)
    decreases |s| - from
  {
    if from + 1 >= |s| then None
    else if PTAt(s, from) then Some(from)
    else FindPT(s, from + 1)
  }

  /** Length of the maximal run of digits starting at `i` (what a greedy `\d+` can take). */
  function DigitRun(s: string, i: nat): (n: nat)
    requires i <= |s|
    ensures i + n <= |s| && forall k :: i <= k < i + n ==> IsDigit(s[k])
    ensures i + n == |s| || !IsDigit(s[i + n])
    decreases |s| - i
  {
    if i < |s| && IsDigit(s[i]) then 1 + DigitRun(s, i + 1) else 0
  }

  /** What one optional group reads: its number (0 when the group is absent) and where scanning resumes. */
  datatype Read = Read(value: nat, next: nat)

  /** One group `(?:(\d+)X)?` at position `i`, followed by `parseInt(m[k] || 0, 10)`. */
  function Component(s: string, i: nat, designator: char): (r: Read)
    requires i <= |s|
    ensures i <= r.next <= |s|
  {
    var n := DigitRun(s, i);
    assert AllDigits(s[i..i + n]);
    if n > 0 && i + n < |s| && s[i + n] == designator then Read(DigitsToNat(s[i..i + n]), i + n + 1)
    else Read(0, i)
  }

  /** The match and the three `parseInt` calls: `None` when the regular expression does not match. */
  function Parse(iso: string): (r: Option<Hms>)
    ensures r.None? <==> !ContainsPT(iso)
  {
    match FindPT(iso, 0)
    case None => None
    case Some(p) => Some(ScanGroups(iso, p + 2))
  }

  /** What the three optional groups read, in order. */
  datatype Scan = Scan(h: Read, m: Read, s: Read)

  /** The three optional groups, read one after the other from position `i`. */
  function ScanFrom(iso: string, i: nat): (r: Scan)
    requires i <= |iso|
    ensures i <= r.h.next <= r.m.next <= r.s.next <= |iso|
  {
    var h := Component(iso, i, 'H');
    var m := Component(iso, h.next, 'M');
    Scan(h, m, Component(iso, m.next, 'S'))
  }

  /** The numbers the three groups read (0 for an absent group). */
  function ScanGroups(iso: string, i: nat): Hms
    requires i <= |iso|
  {
    var sc := ScanFrom(iso, i);
    Hms(sc.h.value, sc.m.value, sc.s.value)
  }

  /** `String(n).padStart(2, '0')`. */
  function Pad2(n: nat): (r: string)
    ensures |r| == if n < 10 then 2 else |NatToString(n)|
    ensures r[|r| - |NatToString(n)|..] == NatToString(n)
    ensures forall i :: 0 <= i < |r| - |NatToString(n)| ==> r[i] == '0'
    ensures AllDigits(r) && DigitsToNat(r) == n
  {
    var digits := NatToString(n);
    LeadingZeros(if |digits| < 2 then 2 - |digits| else 0, digits);
    var r := PadStart(digits, 2, '0');
    assert r[|r| - |digits|..] == digits;
    r
  }

  /** The ternary of index.js: `h:MM:SS` when there are hours, `m:SS` otherwise. */
  function Format(d: Hms): (r: string)
  {
    if d.hours > 0 then NatToString(d.hours) + ":" + Pad2(d.minutes) + ":" + Pad2(d.seconds)
    else NatToString(d.minutes) + ":" + Pad2(d.seconds)
  }

  /** `parseISO8601Duration(iso)`: the empty string exactly when `iso` holds no `PT`. */
  function ParseISO8601Duration(iso: string): string
  {
    match Parse(iso)
    case None => ""
    case Some(d) => Format(d)
  }

  /** The result is empty exactly when the regular expression finds no match, that is, when there is no `PT`. */
  lemma EmptyExactlyWithoutPT(iso: string)
    ensures ParseISO8601Duration(iso) == "" <==> !ContainsPT(iso)
  {
    if Parse(iso).Some? {
      assert |Format(Parse(iso).value)| > 0;
    }
  }

  // ---------------------------------------------------------------------------
  // Reading a clock string back

  predicate IsNumberField(f: string) {
    f != "" && AllDigits(f)
  }

  /** Splits a clock string on `:` and reads each field as a number: the inverse of `Format`. */
  function ReadClock(r: string): Option<Hms>
  {
    var fields := Split(r, ':');
    if |fields| == 3 && IsNumberField(fields[0]) && IsNumberField(fields[1]) && IsNumberField(fields[2]) then
      Some(Hms(DigitsToNat(fields[0]), DigitsToNat(fields[1]), DigitsToNat(fields[2])))
    else if |fields| == 2 && IsNumberField(fields[0]) && IsNumberField(fields[1]) then
      Some(Hms(0, DigitsToNat(fields[0]), DigitsToNat(fields[1])))
    else None
  }

  lemma NoColonInDigits(s: string)
    requires AllDigits(s)
    ensures ':' !in s
  {
  }

  /**
   * The fields of a formatted duration: hours unpadded, then minutes and seconds padded to
   * two digits; without hours, minutes unpadded, then seconds padded to two digits.
   */
  lemma FormatFields(d: Hms)
    ensures Split(Format(d), ':') ==
      if d.hours > 0 then [NatToString(d.hours), Pad2(d.minutes), Pad2(d.seconds)]
      else [NatToString(d.minutes), Pad2(d.seconds)]
  {
    var sec := Pad2(d.seconds);
    NoColonInDigits(sec);
    if d.hours > 0 {
      var hrs, mins := NatToString(d.hours), Pad2(d.minutes);
      NoColonInDigits(hrs);
      NoColonInDigits(mins);
      SplitThree(hrs, mins, sec, ':');
    } else {
      var mins := NatToString(d.minutes);
      NoColonInDigits(mins);
      SplitTwo(mins, sec, ':');
    }
  }

  /** Reading the fields of any formatted duration back gives the same hours, minutes and seconds, values of 60 and more included. */
  lemma FormatRoundTrip(d: Hms)
    ensures ReadClock(Format(d)) == Some(d)
  {
    FormatFields(d);
    var sec := Pad2(d.seconds);
    if d.hours > 0 {
      ReadThreeFields(Format(d), NatToString(d.hours), Pad2(d.minutes), sec);
    } else {
      ReadTwoFields(Format(d), NatToString(d.minutes), sec);
    }
  }

  lemma ReadThreeFields(r: string, a: string, b: string, c: string)
    requires Split(r, ':') == [a, b, c]
    requires IsNumberField(a) && IsNumberField(b) && IsNumberField(c)
    ensures ReadClock(r) == Some(Hms(DigitsToNat(a), DigitsToNat(b), DigitsToNat(c)))
  {
  }

  lemma ReadTwoFields(r: string, a: string, b: string)
    requires Split(r, ':') == [a, b]
    requires IsNumberField(a) && IsNumberField(b)
    ensures ReadClock(r) == Some(Hms(0, DigitsToNat(a), DigitsToNat(b)))
  {
  }

  // ---------------------------------------------------------------------------
  // The match described declaratively

  /** The three optional groups of a match, each a run of digits when present. */
  datatype Designators = Designators(hours: Option<string>, minutes: Option<string>, seconds: Option<string>)

  predicate WellFormedGroup(g: Option<string>) {
    g.None? || IsNumberField(g.value)
  }

  predicate WellFormed(f: Designators) {
    WellFormedGroup(f.hours) && WellFormedGroup(f.minutes) && WellFormedGroup(f.seconds)
  }

  function Group(g: Option<string>, designator: char): string {
    match g
    case None => ""
    case Some(digits) => digits + [designator]
  }

  function GroupValue(g: Option<string>): nat
    requires WellFormedGroup(g)
  {
    match g
    case None => 0
    case Some(digits) => DigitsToNat(digits)
  }

  function Values(f: Designators): Hms
    requires WellFormed(f)
  {
    Hms(GroupValue(f.hours), GroupValue(f.minutes), GroupValue(f.seconds))
  }

  /** The text a match consumes. */
  function Render(f: Designators): string {
    "PT" + Group(f.hours, 'H') + Group(f.minutes, 'M') + Group(f.seconds, 'S')
  }

  /** The designators whose groups the pattern may still take after the last group present. */
  function Pending(f: Designators): string {
    if f.seconds.Some? then ""
    else if f.minutes.Some? then "S"
    else if f.hours.Some? then "MS"
    else "HMS"
  }

  /** `t` begins with digits followed by one of `designators`: a group the pattern would take. */
  predicate StartsGroup(t: string, designators: string) {
    var n := DigitRun(t, 0);
    n > 0 && n < |t| && t[n] in designators
  }

  /**
   * `iso` is `prefix`, then the text of a match with groups `f`, then `suffix`, where the match
   * starts at the first `PT` and takes every group it can.
   */
  predicate MatchSplit(iso: string, prefix: string, f: Designators, suffix: string) {
    iso == prefix + Render(f) + suffix
    && !ContainsPT(prefix)
    && WellFormed(f)
    && !StartsGroup(suffix, Pending(f))
  }

  lemma FindFirstPT(s: string, k: nat)
    requires PTAt(s, k)
    requires forall i: nat :: i < k ==> !PTAt(s, i)
    ensures FindPT(s, 0) == Some(k)
  {
  }

  /** After a prefix without `PT`, a `PT` is the first one. */
  lemma MatchStartsAfter(prefix: string, rest: string)
    requires !ContainsPT(prefix)
    requires |rest| >= 2 && rest[0] == 'P' && rest[1] == 'T'
    ensures FindPT(prefix + rest, 0) == Some(|prefix|)
  {
    var s := prefix + rest;
    forall i: nat | i < |prefix| ensures !PTAt(s, i) {
      if i + 1 < |prefix| {
        assert !PTAt(prefix, i);
      }
    }
    FindFirstPT(s, |prefix|);
  }

  /** Reading the groups of a rendered match, whatever follows it. */
  lemma ScanRendered(iso: string, pre: string, f: Designators, suffix: string)
    requires WellFormed(f) && !StartsGroup(suffix, Pending(f))
    requires iso == pre + Group(f.hours, 'H') + Group(f.minutes, 'M') + Group(f.seconds, 'S') + suffix
    ensures ScanGroups(iso, |pre|) == Values(f)
  {
    var gh, gm, gs := Group(f.hours, 'H'), Group(f.minutes, 'M'), Group(f.seconds, 'S');
    var afterM := gs + suffix;
    var afterH := gm + afterM;
    var p1 := pre + gh;
    var p2 := p1 + gm;
    assert iso == pre + gh + afterH;
    assert iso == p1 + gm + afterM;
    assert iso == p2 + gs + suffix;
    // an absent group is not taken from what follows it
    if f.seconds.None? {
      NarrowPending(suffix, Pending(f), 'S');
    }
    if f.minutes.None? {
      if f.seconds.None? {
        NarrowPending(suffix, Pending(f), 'M');
      }
      NotPendingAfter(f.seconds, 'S', suffix, "M");
    }
    if f.hours.None? {
      if f.minutes.None? && f.seconds.None? {
        NarrowPending(suffix, Pending(f), 'H');
      }
      if f.minutes.None? {
        NotPendingAfter(f.seconds, 'S', suffix, "H");
      }
      NotPendingAfter(f.minutes, 'M', afterM, "H");
    }
    var sc := ScanFrom(iso, |pre|);
    GroupStep(pre, f.hours, 'H', afterH);
    assert sc.h == Read(GroupValue(f.hours), |p1|);
    GroupStep(p1, f.minutes, 'M', afterM);
    assert sc.m == Read(GroupValue(f.minutes), |p2|);
    GroupStep(p2, f.seconds, 'S', suffix);
    assert sc.s.value == GroupValue(f.seconds);
  }

  /** A maximal digit run is what `DigitRun` measures. */
  lemma {:induction false} DigitRunIs(s: string, i: nat, n: nat)
    requires i + n <= |s| && forall k :: i <= k < i + n ==> IsDigit(s[k])
    requires i + n == |s| || !IsDigit(s[i + n])
    ensures DigitRun(s, i) == n
    decreases n
  {
    if n > 0 {
      DigitRunIs(s, i + 1, n - 1);
    }
  }

  lemma DigitRunShift(a: string, t: string)
    ensures DigitRun(a + t, |a|) == DigitRun(t, 0)
  {
    var n := DigitRun(t, 0);
    DigitRunIs(a + t, |a|, n);
  }

  /** A group of digits and its designator starts a group for exactly that designator. */
  lemma StartsGroupOf(digits: string, d: char, rest: string, designators: string)
    requires IsNumberField(digits) && !IsDigit(d)
    ensures StartsGroup(digits + [d] + rest, designators) <==> d in designators
  {
    var t := digits + [d] + rest;
    DigitRunIs(t, 0, |digits|);
  }

  /** One step of the scanner over a group that is, or is not, there. */
  lemma GroupStep(pre: string, g: Option<string>, d: char, rest: string)
    requires WellFormedGroup(g) && !IsDigit(d)
    requires g.None? ==> !StartsGroup(rest, [d])
    ensures Component(pre + Group(g, d) + rest, |pre|, d) == Read(GroupValue(g), |pre| + |Group(g, d)|)
  {
    var s := pre + Group(g, d) + rest;
    match g
    case None =>
      assert s == pre + rest;
      DigitRunShift(pre, rest);
      var n := DigitRun(rest, 0);
      if n > 0 && n < |rest| {
        assert s[|pre| + n] == rest[n];
      }
    case Some(digits) =>
      DigitRunIs(s, |pre|, |digits|);
      assert s[|pre|..|pre| + |digits|] == digits;
  }

  lemma NarrowPending(t: string, pending: string, d: char)
    requires d in pending && !StartsGroup(t, pending)
    ensures !StartsGroup(t, [d])
  {
  }

  /** Whatever follows a group, if it starts a group, it is one the `Pending` designators allow. */
  lemma NotPendingAfter(g: Option<string>, d: char, rest: string, pending: string)
    requires WellFormedGroup(g) && !IsDigit(d)
    requires g.Some? ==> d !in pending
    requires g.None? ==> !StartsGroup(rest, pending)
    ensures !StartsGroup(Group(g, d) + rest, pending)
  {
    if g.Some? {
      StartsGroupOf(g.value, d, rest, pending);
      assert Group(g, d) + rest == g.value + [d] + rest;
    } else {
      assert Group(g, d) + rest == rest;
    }
  }

  /** Soundness of the scanner: a string laid out as a match is parsed to that match's values. */
  lemma ParseMatchSplit(prefix: string, f: Designators, suffix: string)
    requires MatchSplit(prefix + Render(f) + suffix, prefix, f, suffix)
    ensures Parse(prefix + Render(f) + suffix) == Some(Values(f))
  {
    var iso := prefix + Render(f) + suffix;
    RenderLayout(prefix, f, suffix);
    MatchStartsAfter(prefix, Render(f) + suffix);
    ScanRendered(iso, prefix + "PT", f, suffix);
  }

  /** The same text, cut where the scanner looks. */
  lemma RenderLayout(prefix: string, f: Designators, suffix: string)
    ensures var iso := prefix + Render(f) + suffix;
      && iso == prefix + (Render(f) + suffix)
      && iso == prefix + "PT" + Group(f.hours, 'H') + Group(f.minutes, 'M') + Group(f.seconds, 'S') + suffix
      && |prefix + "PT"| == |prefix| + 2
      && |Render(f) + suffix| >= 2 && (Render(f) + suffix)[0] == 'P' && (Render(f) + suffix)[1] == 'T'
  {
  }

  /** The group text between two scan positions, without its designator; `None` when the group is absent. */
  function Slice(s: string, from: nat, to: nat): Option<string>
    requires from <= to <= |s|
  {
    if from == to then None else Some(s[from..to - 1])
  }

  /** The first match in `iso`, cut out of it: the text before, the groups, the text after. */
  function FirstMatch(iso: string): (string, Designators, string)
    requires ContainsPT(iso)
  {
    var p := FindPT(iso, 0).value;
    (iso[..p], GroupsAt(iso, p + 2), iso[GroupsEnd(iso, p + 2)..])
  }

  /**
   * Completeness: every string that holds a `PT` is laid out as a match (its first one), and
   * the scanner reads that match's values.
   */
  lemma ParseHasMatchSplit(iso: string)
    requires ContainsPT(iso)
    ensures var (prefix, f, suffix) := FirstMatch(iso);
      MatchSplit(iso, prefix, f, suffix) && Parse(iso) == Some(Values(f))
  {
    var p := FindPT(iso, 0).value;
    NoPTBeforeFirst(iso, p);
    GroupsAtLayout(iso, p);
  }

  /** The groups the scanner takes from position `i`, as text. */
  function GroupsAt(iso: string, i: nat): Designators
    requires i <= |iso|
  {
    var sc := ScanFrom(iso, i);
    Designators(Slice(iso, i, sc.h.next), Slice(iso, sc.h.next, sc.m.next), Slice(iso, sc.m.next, sc.s.next))
  }

  /** Where the scanner stops after the three groups. */
  function GroupsEnd(iso: string, i: nat): (e: nat)
    requires i <= |iso|
    ensures i <= e <= |iso|
  {
    ScanFrom(iso, i).s.next
  }

  lemma NoPTBeforeFirst(iso: string, p: nat)
    requires FindPT(iso, 0) == Some(p)
    ensures !ContainsPT(iso[..p])
  {
    forall i: nat ensures !PTAt(iso[..p], i) {
      if PTAt(iso[..p], i) {
        assert PTAt(iso, i);
      }
    }
  }

  lemma GroupsAtLayout(iso: string, p: nat)
    requires FindPT(iso, 0) == Some(p)
    ensures var f := GroupsAt(iso, p + 2);
      WellFormed(f)
      && Values(f) == ScanGroups(iso, p + 2)
      && iso == iso[..p] + Render(f) + iso[GroupsEnd(iso, p + 2)..]
      && !StartsGroup(iso[GroupsEnd(iso, p + 2)..], Pending(f))
  {
    GroupsAtValues(iso, p + 2);
    GroupsAtText(iso, p);
    SkippedPending(iso, p + 2);
  }

  lemma GroupsAtValues(iso: string, i: nat)
    requires i <= |iso|
    ensures WellFormed(GroupsAt(iso, i)) && Values(GroupsAt(iso, i)) == ScanGroups(iso, i)
  {
    var sc := ScanFrom(iso, i);
    GroupLayout(iso, i, 'H');
    GroupLayout(iso, sc.h.next, 'M');
    GroupLayout(iso, sc.m.next, 'S');
  }

  lemma GroupsAtText(iso: string, p: nat)
    requires p + 2 <= |iso| && iso[p] == 'P' && iso[p + 1] == 'T'
    ensures iso == iso[..p] + Render(GroupsAt(iso, p + 2)) + iso[GroupsEnd(iso, p + 2)..]
  {
    var sc := ScanFrom(iso, p + 2);
    var h, m, s := sc.h, sc.m, sc.s;
    var f := GroupsAt(iso, p + 2);
    GroupLayout(iso, p + 2, 'H');
    GroupLayout(iso, h.next, 'M');
    GroupLayout(iso, m.next, 'S');
    var gh, gm, gs := iso[p + 2..h.next], iso[h.next..m.next], iso[m.next..s.next];
    assert Render(f) == "PT" + gh + gm + gs;
    assert iso[p..p + 2] == "PT";
    CutInSix(iso, p, h.next, m.next, s.next);
  }

  lemma CutInSix(s: string, p: nat, i: nat, j: nat, k: nat)
    requires p + 2 <= i <= j <= k <= |s|
    ensures s == s[..p] + (s[p..p + 2] + s[p + 2..i] + s[i..j] + s[j..k]) + s[k..]
  {
    assert s[p..k] == s[p..p + 2] + s[p + 2..i] + s[i..j] + s[j..k];
    assert s == s[..p] + s[p..k] + s[k..];
  }

  /** What one step of the scanner consumed, laid out as a group. */
  lemma GroupLayout(iso: string, i: nat, d: char)
    requires i <= |iso| && !IsDigit(d)
    ensures var r := Component(iso, i, d);
      WellFormedGroup(Slice(iso, i, r.next))
      && iso[i..r.next] == Group(Slice(iso, i, r.next), d)
      && GroupValue(Slice(iso, i, r.next)) == r.value
  {
    var r := Component(iso, i, d);
    if r.next > i {
      assert iso[i..r.next] == iso[i..r.next - 1] + [d];
    }
  }

  /** A group the scanner skips at `j` is not there. */
  lemma SkippedGroup(iso: string, j: nat, d: char)
    requires j <= |iso| && Component(iso, j, d).next == j
    ensures !StartsGroup(iso[j..], [d])
  {
    var t := iso[j..];
    assert iso == iso[..j] + t;
    DigitRunShift(iso[..j], t);
    var n := DigitRun(t, 0);
    if n > 0 && n < |t| {
      assert t[n] == iso[j + n];
    }
  }

  /** After the last group taken, the rest of the string starts no group the pattern could still take. */
  lemma SkippedPending(iso: string, i: nat)
    requires i <= |iso|
    ensures !StartsGroup(iso[GroupsEnd(iso, i)..], Pending(GroupsAt(iso, i)))
  {
    var sc := ScanFrom(iso, i);
    var h, m, s := sc.h, sc.m, sc.s;
    var f := GroupsAt(iso, i);
    var t := iso[s.next..];
    if s.next == m.next {
      SkippedGroup(iso, m.next, 'S');
      if m.next == h.next {
        SkippedGroup(iso, h.next, 'M');
        if h.next == i {
          SkippedGroup(iso, i, 'H');
          assert Pending(f) == "HMS";
        } else {
          assert Pending(f) == "MS";
        }
      } else {
        assert Pending(f) == "S";
      }
    } else {
      assert Pending(f) == "";
    }
  }

  // ---------------------------------------------------------------------------
  // Examples

  /** Scanning a rendered match on its own. */
  lemma ParseRendered(f: Designators, iso: string)
    requires WellFormed(f) && iso == Render(f)
    ensures Parse(iso) == Some(Values(f))
  {
    assert !StartsGroup("", Pending(f));
    assert "" + Render(f) + "" == iso;
    ParseMatchSplit("", f, "");
  }

  lemma PadOneDigit(n: nat)
    requires n < 10
    ensures Pad2(n) == ['0', DigitChar(n)]
  {
    var r := Pad2(n);
    assert r[1..] == [DigitChar(n)];
  }

  /** The clock strings of the examples, assembled from their fields. */
  lemma ClockLiterals()
    ensures "0" + ":" + "00" == "0:00"
    ensures "1" + ":" + "00" + ":" + "05" == "1:00:05"
    ensures "90" + ":" + "00" == "90:00"
    ensures "0" + ":" + "45" == "0:45"
    ensures "3" + ":" + "45" == "3:45"
    ensures "1" + ":" + "02" + ":" + "03" == "1:02:03"
  {
  }

  lemma NoDesignatorsGiveZero()
    ensures ParseISO8601Duration("PT") == "0:00"
  {
    ParseRendered(Designators(None, None, None), "PT");
  }

  lemma MissingMinutesCountAsZero()
    ensures ParseISO8601Duration("PT1H5S") == "1:00:05"
  {
    var f := Designators(Some("1"), None, Some("5"));
    assert Render(f) == "PT1H5S";
    assert DigitsToNat("1") == 1 && DigitsToNat("5") == 5;
    ParseRendered(f, "PT1H5S");
    PadOneDigit(0);
    PadOneDigit(5);
    assert NatToString(1) == "1";
    assert Parse("PT1H5S") == Some(Hms(1, 0, 5));
    var d := Hms(1, 0, 5);
    assert Format(d) == NatToString(1) + ":" + Pad2(0) + ":" + Pad2(5);
    assert Format(d) == "1" + ":" + "00" + ":" + "05";
    ClockLiterals();
  }

  lemma MinutesAreNotNormalised()
    ensures ParseISO8601Duration("PT90M") == "90:00"
  {
    PadOneDigit(0);
    NinetyDigits();
    var f := Designators(None, Some("90"), None);
    assert Render(f) == "PT90M";
    ParseRendered(f, "PT90M");
    var r := Format(Hms(0, 90, 0));
    assert r == "90" + ":" + "00";
    ClockLiterals();
  }

  lemma NinetyDigits()
    ensures AllDigits("90") && DigitsToNat("90") == 90 && NatToString(90) == "90"
  {
    assert DigitsToNat("9") == 9;
    assert NatToString(9) == "9";
  }

  lemma SecondsOnlyLeaveMinutesUnpadded()
    ensures ParseISO8601Duration("PT45S") == "0:45"
  {
    FortyFiveDigits();
    var f := Designators(None, None, Some("45"));
    assert Render(f) == "PT45S";
    ParseRendered(f, "PT45S");
    assert NatToString(0) == "0";
    var r := Format(Hms(0, 0, 45));
    assert Pad2(45) == "45";
    assert r == "0" + ":" + "45";
    ClockLiterals();
  }

  lemma FortyFiveDigits()
    ensures AllDigits("45") && DigitsToNat("45") == 45 && NatToString(45) == "45"
  {
    assert DigitsToNat("4") == 4;
    assert NatToString(4) == "4";
  }

  lemma MinutesAndSeconds()
    ensures ParseISO8601Duration("PT3M45S") == "3:45"
  {
    FortyFiveDigits();
    var f := Designators(None, Some("3"), Some("45"));
    assert Render(f) == "PT3M45S";
    assert DigitsToNat("3") == 3;
    ParseRendered(f, "PT3M45S");
    assert NatToString(3) == "3";
    var r := Format(Hms(0, 3, 45));
    assert Pad2(45) == "45";
    assert r == "3" + ":" + "45";
    ClockLiterals();
  }

  lemma AllThreeComponents()
    ensures ParseISO8601Duration("PT1H2M3S") == "1:02:03"
  {
    var f := Designators(Some("1"), Some("2"), Some("3"));
    assert Render(f) == "PT1H2M3S";
    assert DigitsToNat("1") == 1 && DigitsToNat("2") == 2 && DigitsToNat("3") == 3;
    ParseRendered(f, "PT1H2M3S");
    PadOneDigit(2);
    PadOneDigit(3);
    assert NatToString(1) == "1";
    var r := Format(Hms(1, 2, 3));
    assert r == NatToString(1) + ":" + Pad2(2) + ":" + Pad2(3);
    assert r == "1" + ":" + "02" + ":" + "03";
    ClockLiterals();
  }

  lemma DayComponentHasNoMatch()
    ensures ParseISO8601Duration("P1DT2H") == ""
  {
    var iso := "P1DT2H";
    assert iso[1] == '1' && iso[4] == '2' && iso[5] == 'H';
    assert !ContainsPT(iso);
    EmptyExactlyWithoutPT(iso);
  }
}
