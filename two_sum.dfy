/**
 * The sample solution `main.cpp` that the judge submits: one pass over the
 * numbers with a hash map from value to the index where it was last seen,
 * stopping at the first index whose complement has been seen before.
 */
module TwoSum {
  import opened Wrappers
  import Decimal
  import Judge

  /** Some pair of positions before `bound` sums to `target`. */
  ghost predicate PairBefore(nums: seq<int>, target: int, bound: int) {
    exists i, j :: 0 <= j < i < bound && i < |nums| && nums[j] + nums[i] == target
  }

  /**
   * The loop of `main.cpp`. The answer `(j, i)` is what the program prints:
   * `i` is the first index that completes a pair, and `j` is the latest
   * earlier index holding the complement (the map keeps the last index
   * written for each value). No answer means no pair sums to `target`.
   */
  method FindPair(nums: seq<int>, target: int) returns (answer: Option<(nat, nat)>)
    ensures answer.Some? ==>
      var (j, i) := answer.value;
      && j < i < |nums|
      && nums[j] + nums[i] == target
      && (forall k :: j < k < i ==> nums[k] != nums[j])
      && !PairBefore(nums, target, i)
    ensures answer.None? <==> !PairBefore(nums, target, |nums|)
  {
    var seen: map<int, nat> := map[];
    var i := 0;
    while i < |nums|
      invariant 0 <= i <= |nums|
      invariant forall k :: 0 <= k < i ==> nums[k] in seen
      invariant forall v :: v in seen ==>
        seen[v] < i && nums[seen[v]] == v && forall k :: seen[v] < k < i ==> nums[k] != v
      invariant !PairBefore(nums, target, i)
    {
      var need := target - nums[i];
      if need in seen {
        return Some((seen[need], i));
      }
      NoPairExtends(nums, target, i);
      seen := seen[nums[i] := i];
      i := i + 1;
    }
    return None;
  }

  /** If index `i` completes no pair with an earlier one, the first pair lies after it. */
  lemma NoPairExtends(nums: seq<int>, target: int, i: nat)
    requires i < |nums|
    requires !PairBefore(nums, target, i)
    requires forall k :: 0 <= k < i ==> nums[k] + nums[i] != target
    ensures !PairBefore(nums, target, i + 1)
  {
  }

  /**
   * The line `hashmap[need] << " " << i` without its `endl`; nothing when no
   * pair was found. A printed line has no whitespace at either end.
   */
  function Line(answer: Option<(nat, nat)>): (r: string)
    ensures answer.None? <==> r == ""
    ensures Judge.Stripped(r)
  {
    if answer.None? then ""
    else
      var a, b := Decimal.NatToString(answer.value.0), Decimal.NatToString(answer.value.1);
      var r := a + " " + b;
      assert r[0] == a[0] && r[|r| - 1] == b[|b| - 1];
      r
  }

  /** The answer line splits at a single space into the two indices, in order. */
  lemma LineReadsBack(j: nat, i: nat) returns (k: nat)
    ensures var r := Line(Some((j, i)));
      && k < |r| && r[k] == ' '
      && Decimal.AllDigits(r[..k]) && Decimal.AllDigits(r[k + 1..])
      && Decimal.ParseDecimal(r[..k]) == j && Decimal.ParseDecimal(r[k + 1..]) == i
  {
    var a, b := Decimal.NatToString(j), Decimal.NatToString(i);
    var r := Line(Some((j, i)));
    k := |a|;
    assert r[..k] == a && r[k + 1..] == b;
    Decimal.ParseNatToString(j);
    Decimal.ParseNatToString(i);
  }

  /**
   * Everything the program writes to standard output: the answer line and
   * its `endl` once a pair is found; nothing when the loop runs out.
   */
  function Printed(answer: Option<(nat, nat)>): (r: string)
    ensures answer.None? <==> r == ""
    ensures r != "" ==> r[|r| - 1] == '\n' && r[..|r| - 1] == Line(answer)
  {
    if answer.None? then "" else Line(answer) + "\n"
  }

  /** After the judge's `strip()`, the program's output is the bare answer line. */
  lemma PrintedStrips(answer: Option<(nat, nat)>)
    ensures Judge.Strip(Printed(answer)) == Line(answer)
  {
    var line := Line(answer);
    if answer.Some? {
      assert Judge.AllSpace("\n");
      Judge.StripPadded([], line, "\n");
      assert [] + line + "\n" == Printed(answer);
    } else {
      Judge.StripPadded([], "", "");
    }
  }

  /**
   * Submitted to the judge, a clean run of the program is accepted exactly
   * when the expected file holds the answer line, up to surrounding whitespace.
   */
  lemma JudgeAcceptsIff(answer: Option<(nat, nat)>, expectedFile: string, compile: Option<Judge.Stage>)
    requires compile.None? || compile.value.stderr == ""
    ensures var reply := Judge.Reply(None, compile, Some(Judge.Stage(Printed(answer), "")));
      Judge.Classify(reply, expectedFile).verdict == Judge.Accepted
      <==> Judge.Strip(expectedFile) == Line(answer)
  {
    PrintedStrips(answer);
  }
}
