/**
 * The online-CPU list notation of Linux sysfs (`/sys/devices/system/cpu/online`): CPU ids
 * written as comma-separated single ids and inclusive `first-last` ranges, e.g. `0-2,5-7`.
 * `OnlineCPUsFor` writes a list of ids in that notation, collapsing every run of consecutive
 * ids into one range; `ReadCPURange` reads the notation back into the list of ids.
 */
module CpuInfo {
  import opened Wrappers
  import opened Text

  /** An inclusive range of CPU ids; a single id is a range with `first == last`. */
  datatype CPURange = CPURange(first: nat, last: nat)

  predicate ValidRanges(rs: seq<CPURange>)
  {
    forall i :: 0 <= i < |rs| ==> rs[i].first <= rs[i].last
  }

  /** Ranges in ascending order with a gap between neighbours: the shortest way to write a set. */
  predicate Canonical(rs: seq<CPURange>)
  {
    ValidRanges(rs) && forall i :: 0 < i < |rs| ==> rs[i - 1].last + 1 < rs[i].first
  }

  predicate StrictlyAscending(ids: seq<int>)
  {
    forall i, j :: 0 <= i < j < |ids| ==> ids[i] < ids[j]
  }

  /** The ids `first`, `first + 1`, ..., `last`. */
  function Interval(first: nat, last: nat): (ids: seq<nat>)
    requires first <= last
    ensures |ids| == last - first + 1
    ensures ids[0] == first && ids[|ids| - 1] == last
    decreases last - first
  {
    if first == last then [first] else [first] + Interval(first + 1, last)
  }

  /** The ids a list of ranges denotes, in order. */
  function Expand(rs: seq<CPURange>): (ids: seq<nat>)
    requires ValidRanges(rs)
    ensures |ids| >= |rs|
    ensures |rs| > 0 ==> ids[0] == rs[0].first
  {
    if rs == [] then [] else Interval(rs[0].first, rs[0].last) + Expand(rs[1..])
  }

  /** The length of the run of consecutive ids at the head of `ids`. */
  function RunLength(ids: seq<nat>): (k: nat)
    requires |ids| > 0
    ensures 1 <= k <= |ids|
    decreases |ids|
  {
    if |ids| == 1 || ids[1] != ids[0] + 1 then 1 else 1 + RunLength(ids[1..])
  }

  /** The head run is a run, the ids from `ids[0]` up one by one, and a maximal one: the id
      after it does not continue it. */
  lemma {:induction false} RunLengthIsRun(ids: seq<nat>)
    requires |ids| > 0
    ensures ids[..RunLength(ids)] == Interval(ids[0], ids[0] + RunLength(ids) - 1)
    ensures RunLength(ids) < |ids| ==> ids[RunLength(ids)] != ids[0] + RunLength(ids)
    decreases |ids|
  {
    var k := RunLength(ids);
    if k > 1 {
      RunLengthIsRun(ids[1..]);
      assert ids[..k] == [ids[0]] + ids[1..][..k - 1];
    }
  }

  /** Splits `ids` into its maximal runs of consecutive ids, in input order. */
  function Ranges(ids: seq<nat>): (rs: seq<CPURange>)
    ensures ValidRanges(rs)
    ensures |rs| <= |ids|
    ensures |rs| == 0 <==> |ids| == 0
    ensures |rs| > 0 ==> rs[0].first == ids[0]
    decreases |ids|
  {
    if ids == [] then []
    else
      var k := RunLength(ids);
      [CPURange(ids[0], ids[0] + k - 1)] + Ranges(ids[k..])
  }

  /** One range as text: the bare id for a single id, `first-last` otherwise. */
  function FormatRange(r: CPURange): string
  {
    if r.first == r.last then NatToString(r.first)
    else NatToString(r.first) + "-" + NatToString(r.last)
  }

  function FormatRanges(rs: seq<CPURange>): (parts: seq<string>)
    ensures |parts| == |rs|
  {
    if rs == [] then [] else [FormatRange(rs[0])] + FormatRanges(rs[1..])
  }

  /** The notation of a list of ids: its runs, formatted and joined by commas. */
  function Encode(ids: seq<nat>): string
  {
    if ids == [] then "" else Join(FormatRanges(Ranges(ids)), ',')
  }

  /**
   * `onlineCPUsFor(siblings, coreIDs)`: the id list in online-CPU notation. The precondition
   * keeps the ids in `0..7`, the range the test table covers; `siblings` does not change
   * the result.
   */
  function OnlineCPUsFor(siblings: string, coreIDs: seq<int>): (r: string)
    requires forall i :: 0 <= i < |coreIDs| ==> 0 <= coreIDs[i] <= 7
    ensures |coreIDs| > 0 ==> ReadCPURange(r) == Success(coreIDs)
    ensures |coreIDs| == 0 ==> r == ""
  {
    var ids: seq<nat> := coreIDs;
    if ids == [] then "" else EncodeRoundTrip(ids); Encode(ids)
  }

  // ---- reading the notation back ----

  datatype RangeError =
    | BadNumber(text: string)           // a piece that is not a decimal numeral
    | Descending(first: nat, last: nat)  // a range whose end lies below its start

  /** Reads one comma-separated piece: `n` or `first-last` with `first <= last`. */
  function ParseRange(piece: string): (r: Result<CPURange, RangeError>)
    ensures r.Success? ==> r.value.first <= r.value.last
  {
    if '-' in piece then
      var i := FirstIndex(piece, '-');
      var first, last := ParseNat(piece[..i]), ParseNat(piece[i + 1..]);
      if first.None? then Failure(BadNumber(piece[..i]))
      else if last.None? then Failure(BadNumber(piece[i + 1..]))
      else if first.value > last.value then Failure(Descending(first.value, last.value))
      else Success(CPURange(first.value, last.value))
    else
      match ParseNat(piece)
      case Some(n) => Success(CPURange(n, n))
      case None => Failure(BadNumber(piece))
  }

  function ParseRanges(pieces: seq<string>): (r: Result<seq<CPURange>, RangeError>)
    ensures r.Success? ==> |r.value| == |pieces| && ValidRanges(r.value)
  {
    if pieces == [] then Success([])
    else
      match ParseRange(pieces[0])
      case Failure(e) => Failure(e)
      case Success(head) =>
        match ParseRanges(pieces[1..])
        case Failure(e) => Failure(e)
        case Success(tail) => Success([head] + tail)
  }

  /**
   * `readCPURange`: the ids a string in online-CPU notation denotes. Every piece contributes
   * at least one id, so a successful read is never empty.
   */
  function ReadCPURange(s: string): (r: Result<seq<nat>, RangeError>)
    ensures r.Success? ==> |r.value| > 0
    ensures s == "" ==> r.Failure?
  {
    match ParseRanges(Split(s, ','))
    case Failure(e) => Failure(e)
    case Success(rs) => Success(Expand(rs))
  }

  // ---- properties ----

  /** The runs of a list denote exactly that list, in order. */
  lemma {:induction false} ExpandRanges(ids: seq<nat>)
    ensures Expand(Ranges(ids)) == ids
    decreases |ids|
  {
    if ids != [] {
      var k := RunLength(ids);
      var head := CPURange(ids[0], ids[0] + k - 1);
      var tail := Ranges(ids[k..]);
      RangesCons(ids);
      RunLengthIsRun(ids);
      ExpandCons(head, tail);
      ExpandRanges(ids[k..]);
      calc {
        Expand(Ranges(ids));
        Interval(ids[0], ids[0] + k - 1) + Expand(tail);
        ids[..k] + ids[k..];
        ids;
      }
    }
  }

  /** The first range of a list is its head run. */
  lemma RangesCons(ids: seq<nat>)
    requires ids != []
    ensures Ranges(ids)
         == [CPURange(ids[0], ids[0] + RunLength(ids) - 1)] + Ranges(ids[RunLength(ids)..])
  {
  }

  lemma ExpandCons(r: CPURange, rs: seq<CPURange>)
    requires r.first <= r.last && ValidRanges(rs)
    ensures ValidRanges([r] + rs)
    ensures Expand([r] + rs) == Interval(r.first, r.last) + Expand(rs)
  {
    assert ([r] + rs)[1..] == rs;
  }


  /** A strictly ascending list splits into canonical ranges: ascending, each run maximal, so
      two adjacent ids always share a range. */
  lemma {:induction false} RangesCanonical(ids: seq<nat>)
    requires StrictlyAscending(ids)
    ensures Canonical(Ranges(ids))
    decreases |ids|
  {
    if ids != [] {
      var k := RunLength(ids);
      var rs := Ranges(ids);
      assert rs[1..] == Ranges(ids[k..]);
      RangesCanonical(ids[k..]);
      if k < |ids| {
        RunLengthIsRun(ids);
        assert ids[..k][k - 1] == ids[0] + k - 1;
        assert rs[0].last == ids[k - 1];
        assert ids[k - 1] < ids[k];
      }
    }
  }

  /** A run followed by ids that do not continue it becomes one range of its own. */
  lemma RangesAfterRun(first: nat, last: nat, rest: seq<nat>)
    requires first <= last
    requires rest != [] ==> rest[0] != last + 1
    ensures Ranges(Interval(first, last) + rest) == [CPURange(first, last)] + Ranges(rest)
  {
    var ids := Interval(first, last) + rest;
    assert ids[..last - first + 1] == Interval(first, last);
    RunLengthUnique(ids, last - first + 1);
    assert ids[last - first + 1..] == rest;
  }

  /** `RunLength` is the one length whose prefix is consecutive and is not continued. */
  lemma {:induction false} RunLengthUnique(ids: seq<nat>, n: nat)
    requires 1 <= n <= |ids|
    requires ids[..n] == Interval(ids[0], ids[0] + n - 1)
    requires n < |ids| ==> ids[n] != ids[0] + n
    ensures RunLength(ids) == n
    decreases n
  {
    if n > 1 {
      var run := Interval(ids[0], ids[0] + n - 1);
      assert run == [ids[0]] + Interval(ids[0] + 1, ids[0] + n - 1);
      assert ids[1] == ids[..n][1] == ids[0] + 1;
      var tail := ids[1..];
      assert tail[..n - 1] == ids[..n][1..];
      RunLengthUnique(tail, n - 1);
    }
  }

  /** The ranges after the first of a canonical list are canonical, and the second starts
      beyond the first's successor. */
  lemma CanonicalTail(rs: seq<CPURange>)
    requires Canonical(rs) && rs != []
    ensures Canonical(rs[1..])
    ensures |rs| > 1 ==> rs[0].last + 1 < rs[1].first
  {
    var tail := rs[1..];
    forall i | 0 < i < |tail|
      ensures tail[i - 1].last + 1 < tail[i].first
    {
      assert tail[i - 1] == rs[i] && tail[i] == rs[i + 1];
    }
  }

  /** Canonical ranges are recovered from the ids they denote: the encoding of a set is unique. */
  lemma {:induction false} RangesOfCanonical(rs: seq<CPURange>)
    requires Canonical(rs)
    ensures Ranges(Expand(rs)) == rs
  {
    if rs != [] {
      var head, tail := rs[0], rs[1..];
      assert [head] + tail == rs;
      CanonicalTail(rs);
      var rest := Expand(tail);
      ExpandCons(head, tail);
      if tail != [] {
        assert rest[0] == rs[1].first;
      }
      RangesAfterRun(head.first, head.last, rest);
      RangesOfCanonical(tail);
    }
  }

  /** Each formatted range reads back as itself. */
  lemma ParseFormatRange(r: CPURange)
    requires r.first <= r.last
    ensures ',' !in FormatRange(r)
    ensures ParseRange(FormatRange(r)) == Success(r)
  {
    var a, b := NatToString(r.first), NatToString(r.last);
    ParseNatToString(r.first);
    ParseNatToString(r.last);
    DigitsExclude(a, ',');
    DigitsExclude(b, ',');
    DigitsExclude(a, '-');
    if r.first != r.last {
      var s := FormatRange(r);
      assert s[|a|] == '-';
      assert s[..|a|] == a;
      assert FirstIndex(s, '-') == |a|;
      assert s[|a| + 1..] == b;
    }
  }

  lemma {:induction false} ParseFormatRanges(rs: seq<CPURange>)
    requires ValidRanges(rs)
    ensures ParseRanges(FormatRanges(rs)) == Success(rs)
  {
    if rs != [] {
      var parts := FormatRanges(rs);
      ParseFormatRange(rs[0]);
      ParseFormatRanges(rs[1..]);
      assert parts[0] == FormatRange(rs[0]);
      assert parts[1..] == FormatRanges(rs[1..]);
      assert [rs[0]] + rs[1..] == rs;
    }
  }

  lemma FormatRangesNoComma(rs: seq<CPURange>)
    requires ValidRanges(rs)
    ensures forall i :: 0 <= i < |rs| ==> ',' !in FormatRanges(rs)[i]
  {
    forall i | 0 <= i < |rs|
      ensures ',' !in FormatRanges(rs)[i]
    {
      FormatRangesAt(rs, i);
      ParseFormatRange(rs[i]);
    }
  }

  lemma {:induction false} FormatRangesAt(rs: seq<CPURange>, i: nat)
    requires i < |rs|
    ensures FormatRanges(rs)[i] == FormatRange(rs[i])
  {
    if i > 0 {
      FormatRangesAt(rs[1..], i - 1);
    }
  }

  /** Reading the notation of a non-empty list gives the list back. */
  lemma EncodeRoundTrip(ids: seq<nat>)
    requires |ids| > 0
    ensures ReadCPURange(Encode(ids)) == Success(ids)
  {
    var rs := Ranges(ids);
    ParseFormatRanges(rs);
    FormatRangesNoComma(rs);
    SplitJoin(FormatRanges(rs), ',');
    ExpandRanges(ids);
  }

  /** The notation of the ids canonical ranges denote is those ranges, formatted. */
  lemma EncodeCanonical(rs: seq<CPURange>)
    requires Canonical(rs) && rs != []
    ensures Encode(Expand(rs)) == Join(FormatRanges(rs), ',')
  {
    RangesOfCanonical(rs);
  }

  /** The notation of two or three canonical ranges, spelled out. */
  lemma EncodeCanonical2(r1: CPURange, r2: CPURange)
    requires r1.first <= r1.last && r1.last + 1 < r2.first <= r2.last
    ensures Expand([r1, r2]) == Interval(r1.first, r1.last) + Interval(r2.first, r2.last)
    ensures Encode(Expand([r1, r2])) == FormatRange(r1) + "," + FormatRange(r2)
  {
    var rs := [r1, r2];
    assert Canonical(rs);
    EncodeCanonical(rs);
    assert rs[1..] == [r2];
    assert Expand([r2]) == Interval(r2.first, r2.last) + Expand([]);
    assert FormatRanges(rs) == [FormatRange(r1)] + FormatRanges([r2]);
  }

  lemma EncodeCanonical3(r1: CPURange, r2: CPURange, r3: CPURange)
    requires r1.first <= r1.last && r1.last + 1 < r2.first <= r2.last && r2.last + 1 < r3.first <= r3.last
    ensures Expand([r1, r2, r3])
         == Interval(r1.first, r1.last) + Interval(r2.first, r2.last) + Interval(r3.first, r3.last)
    ensures Encode(Expand([r1, r2, r3]))
         == FormatRange(r1) + "," + FormatRange(r2) + "," + FormatRange(r3)
  {
    var rs := [r1, r2, r3];
    assert Canonical(rs);
    EncodeCanonical(rs);
    assert rs[1..] == [r2, r3];
    ExpandPair(r2, r3);
    FormatPair(r2, r3);
  }

  lemma ExpandPair(r1: CPURange, r2: CPURange)
    requires r1.first <= r1.last && r2.first <= r2.last
    ensures Expand([r1, r2]) == Interval(r1.first, r1.last) + Interval(r2.first, r2.last)
  {
    assert [r1, r2][1..] == [r2];
    assert Expand([r2]) == Interval(r2.first, r2.last) + Expand([]);
  }

  lemma FormatPair(r1: CPURange, r2: CPURange)
    ensures Join(FormatRanges([r1, r2]), ',') == FormatRange(r1) + "," + FormatRange(r2)
  {
    assert [r1, r2][1..] == [r2];
    assert FormatRanges([r1, r2]) == [FormatRange(r1), FormatRange(r2)];
  }

  /** A single id is written as the bare number. */
  lemma EncodeSingle(a: nat)
    ensures Encode([a]) == NatToString(a)
  {
    EncodeCanonical([CPURange(a, a)]);
    assert Expand([CPURange(a, a)]) == Interval(a, a) + Expand([]);
  }

  /** Two ids that are not neighbours are written apart, joined by a comma. */
  lemma EncodeApart(a: nat, b: nat)
    requires a + 1 < b
    ensures Encode([a, b]) == NatToString(a) + "," + NatToString(b)
  {
    EncodeCanonical2(CPURange(a, a), CPURange(b, b));
  }

  /** Two neighbouring ids already form a range: `a-b`, never `a,b`. */
  lemma EncodeAdjacentPair(a: nat)
    ensures Encode([a, a + 1]) == NatToString(a) + "-" + NatToString(a + 1)
  {
    EncodeCanonical([CPURange(a, a + 1)]);
    assert Expand([CPURange(a, a + 1)]) == Interval(a, a + 1) + Expand([]);
  }

  /** A run of consecutive ids, however long, is written as `first-last`. */
  lemma EncodeRun(first: nat, last: nat)
    requires first < last
    ensures Encode(Interval(first, last)) == NatToString(first) + "-" + NatToString(last)
  {
    var run := Interval(first, last);
    EncodeCanonical([CPURange(first, last)]);
    assert Expand([CPURange(first, last)]) == run + Expand([]);
    assert run + [] == run;
    assert FormatRanges([CPURange(first, last)]) == [FormatRange(CPURange(first, last))];
  }

  // The cases of `TestOnlineCPUsFor`, whose `siblings` is `0-7`.

  lemma OneCPUOnly()
    ensures OnlineCPUsFor("0-7", [3]) == "3"
  {
  }

  lemma AComma()
    ensures OnlineCPUsFor("0-7", [3, 5]) == "3,5"
  {
  }

  lemma ARange()
    ensures OnlineCPUsFor("0-7", [0, 1, 2, 3]) == "0-3"
  {
  }

  lemma ARangeAndSingle()
    ensures OnlineCPUsFor("0-7", [0, 1, 2, 5]) == "0-2,5"
  {
  }

  lemma TwoRanges()
    ensures OnlineCPUsFor("0-7", [0, 1, 2, 5, 6, 7]) == "0-2,5-7"
  {
    EncodeCanonical2(CPURange(0, 2), CPURange(5, 7));
    assert Interval(0, 2) == [0, 1, 2];
    assert FormatRange(CPURange(0, 2)) == "0-2";
    assert Interval(5, 7) == [5, 6, 7];
    assert FormatRange(CPURange(5, 7)) == "5-7";
    assert [0, 1, 2] + [5, 6, 7] == [0, 1, 2, 5, 6, 7];
    assert "0-2" + "," + "5-7" == "0-2,5-7";
  }

  lemma RangesAndCommas()
    ensures OnlineCPUsFor("0-7", [1, 2, 4, 6, 7]) == "1-2,4,6-7"
  {
  }

  lemma MultipleComma()
    ensures OnlineCPUsFor("0-7", [1, 2, 4, 7]) == "1-2,4,7"
  {
  }

  lemma MultipleMixesMultipleTimes()
    ensures OnlineCPUsFor("0-7", [0, 1, 3, 4, 6, 7]) == "0-1,3-4,6-7"
  {
    EncodeCanonical3(CPURange(0, 1), CPURange(3, 4), CPURange(6, 7));
    assert Interval(0, 1) == [0, 1];
    assert FormatRange(CPURange(0, 1)) == "0-1";
    assert Interval(3, 4) == [3, 4];
    assert FormatRange(CPURange(3, 4)) == "3-4";
    assert Interval(6, 7) == [6, 7];
    assert FormatRange(CPURange(6, 7)) == "6-7";
    assert [0, 1] + [3, 4] + [6, 7] == [0, 1, 3, 4, 6, 7];
    assert "0-1" + "," + "3-4" + "," + "6-7" == "0-1,3-4,6-7";
  }
}
