/**
 * Pairing numbers with shortcodes: the adjacency pass, the collection of
 * leftover tokens, the nearest-match pass and the whole line parser.
 *
 * The adjacency pass scans left to right with a `used` mask; a shortcode of a
 * roster player claims the unused number just before it, otherwise the unused
 * number just after it, and is itself marked used whether or not it found
 * one. `ClaimOf` is an independent, mask-free description of the same choice:
 * when the shortcode at `i` is reached, the number at `i - 1` can only have
 * been taken by the shortcode at `i - 2`, and the number at `i + 1` cannot
 * have been taken yet.
 */
module Pairing {
  import opened Wrappers
  import opened Text
  import opened Tokens

  /** Position `i` holds the shortcode of a player on the roster. */
  predicate IsValidCode(toks: seq<Token>, valid: set<string>, i: int)
  {
    0 <= i < |toks| && toks[i].Code? && [toks[i].letter] in valid
  }

  predicate IsNumAt(toks: seq<Token>, i: int)
  {
    0 <= i < |toks| && toks[i].Num?
  }

  /** The position of the number the shortcode at `i` claims in the adjacency pass, if any. */
  function ClaimOf(toks: seq<Token>, valid: set<string>, i: nat): (r: Option<nat>)
    ensures r.Some? ==> IsValidCode(toks, valid, i) && IsNumAt(toks, r.value)
    ensures r.Some? ==> r.value + 1 == i || r.value == i + 1
  {
    if !IsValidCode(toks, valid, i) then None
    else if IsNumAt(toks, i - 1) && !(i >= 2 && ClaimOf(toks, valid, i - 2) == Some(i - 1)) then Some(i - 1)
    else if IsNumAt(toks, i + 1) then Some(i + 1)
    else None
  }

  /** Whether position `j` is marked used once positions `0 .. k-1` have been scanned. */
  predicate UsedBy(toks: seq<Token>, valid: set<string>, k: nat, j: nat)
  {
    || (j < k && IsValidCode(toks, valid, j))
    || (1 <= j <= k && ClaimOf(toks, valid, j - 1) == Some(j))
    || (j + 1 < k && ClaimOf(toks, valid, j + 1) == Some(j))
  }

  /** The `used` mask once positions `0 .. k-1` have been scanned. */
  function MaskAt(toks: seq<Token>, valid: set<string>, k: nat): (used: seq<bool>)
    ensures |used| == |toks|
  {
    seq(|toks|, j requires 0 <= j < |toks| => UsedBy(toks, valid, k, j))
  }

  /** The `used` mask at the end of the adjacency pass. */
  function UsedMask(toks: seq<Token>, valid: set<string>): (used: seq<bool>)
    ensures |used| == |toks|
  {
    MaskAt(toks, valid, |toks|)
  }

  /** `changes[code] = (changes[code] || 0) + amount`. */
  function AddTo(changes: map<string, int>, code: string, amount: int): (r: map<string, int>)
  {
    changes[code := (if code in changes then changes[code] else 0) + amount]
  }

  /** The (shortcode, amount) pairs the adjacency pass forms among positions `0 .. k-1`, in scan order. */
  function Claims(toks: seq<Token>, valid: set<string>, k: nat): seq<(string, int)>
    requires k <= |toks|
  {
    if k == 0 then []
    else
      Claims(toks, valid, k - 1) +
      match ClaimOf(toks, valid, k - 1)
      case Some(j) => [([toks[k - 1].letter], toks[j].value)]
      case None => []
  }

  /** The change map built from pairs, one `AddTo` per pair in order. */
  function Aggregate(ps: seq<(string, int)>): (m: map<string, int>)
    ensures m.Keys == set k | 0 <= k < |ps| :: ps[k].0
  {
    if ps == [] then map[]
    else
      var m := Aggregate(ps[..|ps| - 1]);
      assert forall k | 0 <= k < |ps| - 1 :: ps[..|ps| - 1][k] == ps[k];
      AddTo(m, ps[|ps| - 1].0, ps[|ps| - 1].1)
  }

  /** The change map the adjacency pass leaves behind. */
  function AdjChanges(toks: seq<Token>, valid: set<string>): (m: map<string, int>)
  {
    Aggregate(Claims(toks, valid, |toks|))
  }

  /** The sum of every amount paired with `code`. */
  function SumFor(ps: seq<(string, int)>, code: string): (total: int)
  {
    if ps == [] then 0
    else (if ps[0].0 == code then ps[0].1 else 0) + SumFor(ps[1..], code)
  }

  // ------------------------------------------------------------ the adjacency pass

  /**
   * What the scan decides at a roster shortcode `i`, read off the mask as it
   * stands when `i` is reached: the preceding number if unused, else the
   * following number if unused, else nothing.
   */
  lemma ClaimMatchesScan(toks: seq<Token>, valid: set<string>, i: nat)
    requires IsValidCode(toks, valid, i)
    ensures ClaimOf(toks, valid, i) ==
      if IsNumAt(toks, i - 1) && !UsedBy(toks, valid, i, i - 1) then Some(i - 1)
      else if IsNumAt(toks, i + 1) && !UsedBy(toks, valid, i, i + 1) then Some(i + 1)
      else None
  {
  }

  lemma {:induction false} SumForSnoc(ps: seq<(string, int)>, p: (string, int), code: string)
    ensures SumFor(ps + [p], code) == SumFor(ps, code) + (if p.0 == code then p.1 else 0)
  {
    if ps != [] {
      assert (ps + [p])[1..] == ps[1..] + [p];
      SumForSnoc(ps[1..], p, code);
    }
  }

  /** The change map of pairs with one more pair at the end: one more `AddTo`. */
  lemma AggregateSnoc(ps: seq<(string, int)>, p: (string, int))
    ensures Aggregate(ps + [p]) == AddTo(Aggregate(ps), p.0, p.1)
  {
    assert (ps + [p])[..|ps|] == ps;
  }

  /** Repeated shortcodes sum: each entry of the change map is the total of the amounts paired with its code. */
  lemma {:induction false} AggregateSums(ps: seq<(string, int)>, code: string)
    ensures code in Aggregate(ps) ==> Aggregate(ps)[code] == SumFor(ps, code)
    ensures code !in Aggregate(ps) ==> SumFor(ps, code) == 0
  {
    if ps != [] {
      var init := ps[..|ps| - 1];
      AggregateSums(init, code);
      SumForSnoc(init, ps[|ps| - 1], code);
      assert init + [ps[|ps| - 1]] == ps;
    }
  }

  /** No number is claimed by two shortcodes. */
  lemma ClaimUnique(toks: seq<Token>, valid: set<string>, i: nat, k: nat)
    requires ClaimOf(toks, valid, i).Some? && ClaimOf(toks, valid, i) == ClaimOf(toks, valid, k)
    ensures i == k
  {
  }

  /**
   * At the end of the pass every roster shortcode is marked used, a number
   * is marked used exactly when some shortcode claimed it, and a number with
   * no roster shortcode beside it is never used.
   */
  lemma UsedAtEnd(toks: seq<Token>, valid: set<string>, j: nat)
    requires j < |toks|
    ensures IsValidCode(toks, valid, j) ==> UsedMask(toks, valid)[j]
    ensures IsNumAt(toks, j) ==>
      (UsedMask(toks, valid)[j] <==> (j >= 1 && ClaimOf(toks, valid, j - 1) == Some(j)) || ClaimOf(toks, valid, j + 1) == Some(j))
    ensures IsNumAt(toks, j) && !IsValidCode(toks, valid, j - 1) && !IsValidCode(toks, valid, j + 1) ==> !UsedMask(toks, valid)[j]
  {
  }

  lemma {:induction false} ClaimsCodesValid(toks: seq<Token>, valid: set<string>, k: nat)
    requires k <= |toks|
    ensures forall p | p in Claims(toks, valid, k) :: p.0 in valid
  {
    if k > 0 {
      ClaimsCodesValid(toks, valid, k - 1);
    }
  }

  /** Only shortcodes of roster players ever receive a change. */
  lemma AdjChangesKeysValid(toks: seq<Token>, valid: set<string>)
    ensures AdjChanges(toks, valid).Keys <= valid
  {
    ClaimsCodesValid(toks, valid, |toks|);
  }

  lemma {:induction false} ClaimsEmptyIff(toks: seq<Token>, valid: set<string>, k: nat)
    requires k <= |toks|
    ensures Claims(toks, valid, k) == [] <==> forall i | 0 <= i < k :: ClaimOf(toks, valid, i).None?
  {
    if k > 0 {
      ClaimsEmptyIff(toks, valid, k - 1);
      assert Claims(toks, valid, k) == [] <==> Claims(toks, valid, k - 1) == [] && ClaimOf(toks, valid, k - 1).None?;
    }
  }

  /**
   * The adjacency pass finds nothing exactly when no roster shortcode has a
   * number right next to it.
   */
  lemma AdjChangesEmptyIff(toks: seq<Token>, valid: set<string>)
    ensures AdjChanges(toks, valid) == map[] <==>
      forall i | 0 <= i < |toks| :: IsValidCode(toks, valid, i) ==> !IsNumAt(toks, i - 1) && !IsNumAt(toks, i + 1)
  {
    var ps := Claims(toks, valid, |toks|);
    ClaimsEmptyIff(toks, valid, |toks|);
    if ps != [] {
      assert ps[0].0 in AdjChanges(toks, valid);
    }
    if AdjChanges(toks, valid) == map[] {
      forall i | 0 <= i < |toks| && IsValidCode(toks, valid, i)
        ensures !IsNumAt(toks, i - 1) && !IsNumAt(toks, i + 1)
      {
        assert ClaimOf(toks, valid, i).None?;
        if i >= 2 { assert ClaimOf(toks, valid, i - 2).None?; }
      }
    }
  }

  /** The scan's choice at a roster shortcode `i`, read off the mask `m` it sees there, is `ClaimOf`. */
  lemma ScanChoice(toks: seq<Token>, valid: set<string>, i: nat, m: seq<bool>)
    requires IsValidCode(toks, valid, i) && m == MaskAt(toks, valid, i)
    ensures ClaimOf(toks, valid, i) ==
      if i - 1 >= 0 && toks[i - 1].Num? && !m[i - 1] then Some(i - 1)
      else if i + 1 < |toks| && toks[i + 1].Num? && !m[i + 1] then Some(i + 1)
      else None
  {
    ClaimMatchesScan(toks, valid, i);
  }

  /** One scan step on the mask: the shortcode at `i` and the number it claims become used. */
  lemma MaskStep(toks: seq<Token>, valid: set<string>, i: nat)
    requires i < |toks|
    ensures MaskAt(toks, valid, i + 1) ==
      if !IsValidCode(toks, valid, i) then MaskAt(toks, valid, i)
      else match ClaimOf(toks, valid, i)
        case Some(j) => MaskAt(toks, valid, i)[j := true][i := true]
        case None => MaskAt(toks, valid, i)[i := true]
  {
  }

  /** One scan step on the change map: the claimed amount, if any, is added under the shortcode. */
  lemma AggregateStep(toks: seq<Token>, valid: set<string>, i: nat)
    requires i < |toks|
    ensures Aggregate(Claims(toks, valid, i + 1)) ==
      match ClaimOf(toks, valid, i)
      case Some(j) => AddTo(Aggregate(Claims(toks, valid, i)), [toks[i].letter], toks[j].value)
      case None => Aggregate(Claims(toks, valid, i))
  {
    var ps := Claims(toks, valid, i);
    match ClaimOf(toks, valid, i)
    case Some(j) =>
      assert (ps + [([toks[i].letter], toks[j].value)])[..|ps|] == ps;
    case None =>
      assert ps + [] == ps;
  }

  /** The `used` mask as the scan builds it, one position at a time. */
  function Scanned(toks: seq<Token>, valid: set<string>, k: nat): (used: seq<bool>)
    requires k <= |toks|
    ensures |used| == |toks|
  {
    if k == 0 then seq(|toks|, _ => false)
    else
      var m := Scanned(toks, valid, k - 1);
      if !IsValidCode(toks, valid, k - 1) then m
      else match ClaimOf(toks, valid, k - 1)
        case Some(j) => m[j := true][k - 1 := true]
        case None => m[k - 1 := true]
  }

  /** The mask built step by step is the closed-form mask of `UsedBy`. */
  lemma {:induction false} ScannedIsMask(toks: seq<Token>, valid: set<string>, k: nat)
    requires k <= |toks|
    ensures Scanned(toks, valid, k) == MaskAt(toks, valid, k)
  {
    if k > 0 {
      ScannedIsMask(toks, valid, k - 1);
      MaskStep(toks, valid, k - 1);
    }
  }

  /**
   * One scan step at a roster shortcode `i`, with the mask `before` it sees:
   * `j` is the number it takes (`-1` for none), which is the one `ClaimOf`
   * names; the mask gains `j` and `i` and the change map gains the pair.
   */
  lemma ScanStep(toks: seq<Token>, valid: set<string>, i: nat, before: seq<bool>, j: int)
    requires IsValidCode(toks, valid, i) && before == Scanned(toks, valid, i)
    requires j == if i - 1 >= 0 && toks[i - 1].Num? && !before[i - 1] then i - 1
      else if i + 1 < |toks| && toks[i + 1].Num? && !before[i + 1] then i + 1
      else -1
    ensures j >= 0 ==> IsNumAt(toks, j)
    ensures Scanned(toks, valid, i + 1) == if j >= 0 then before[j := true][i := true] else before[i := true]
    ensures Aggregate(Claims(toks, valid, i + 1)) ==
      if j >= 0 then AddTo(Aggregate(Claims(toks, valid, i)), [toks[i].letter], toks[j].value)
      else Aggregate(Claims(toks, valid, i))
  {
    ScannedIsMask(toks, valid, i);
    ScanChoice(toks, valid, i, before);
    AggregateStep(toks, valid, i);
  }

  /** A scan step at any other token leaves the change map as it is. */
  lemma SkipStep(toks: seq<Token>, valid: set<string>, i: nat)
    requires i < |toks| && !IsValidCode(toks, valid, i)
    ensures Aggregate(Claims(toks, valid, i + 1)) == Aggregate(Claims(toks, valid, i))
  {
    AggregateStep(toks, valid, i);
  }

  /**
   * The adjacency pass: the `used` mask is a fresh array, the change map is
   * filled in as pairs are found.
   */
  method AdjacencyPass(toks: seq<Token>, valid: set<string>) returns (used: seq<bool>, changes: map<string, int>)
    ensures used == UsedMask(toks, valid)
    ensures changes == AdjChanges(toks, valid)
  {
    var mask := new bool[|toks|](_ => false);
    changes := map[];
    var i := 0;
    while i < |toks|
      invariant 0 <= i <= |toks|
      invariant mask[..] == Scanned(toks, valid, i)
      invariant changes == Aggregate(Claims(toks, valid, i))
    {
      var t := toks[i];
      if t.Code? && [t.letter] in valid {
        var j := -1;
        if i - 1 >= 0 && toks[i - 1].Num? && !mask[i - 1] {
          j := i - 1;
        } else if i + 1 < |toks| && toks[i + 1].Num? && !mask[i + 1] {
          j := i + 1;
        }
        ghost var before := mask[..];
        ScanStep(toks, valid, i, before, j);
        if j >= 0 {
          changes := AddTo(changes, [t.letter], toks[j].value);
          mask[j] := true;
        }
        mask[i] := true;
      } else {
        SkipStep(toks, valid, i);
      }
      i := i + 1;
    }
    ScannedIsMask(toks, valid, |toks|);
    used := mask[..];
  }

  // ------------------------------------------------------------ leftovers

  /** An unused number token and its position. */
  datatype NumAt = NumAt(idx: nat, amount: int)

  /** An unused roster shortcode token and its position. */
  datatype CodeAt = CodeAt(idx: nat, code: string)

  /** The unused number tokens among positions `0 .. k-1`, in order. */
  function UnusedNums(toks: seq<Token>, used: seq<bool>, k: nat): (r: seq<NumAt>)
    requires k <= |toks| == |used|
    ensures forall n | n in r :: n.idx < k && IsNumAt(toks, n.idx) && !used[n.idx] && n.amount == toks[n.idx].value
  {
    if k == 0 then []
    else UnusedNums(toks, used, k - 1) + (if !used[k - 1] && toks[k - 1].Num? then [NumAt(k - 1, toks[k - 1].value)] else [])
  }

  /** The unused roster shortcodes among positions `0 .. k-1`, in order. */
  function UnusedCodes(toks: seq<Token>, valid: set<string>, used: seq<bool>, k: nat): (r: seq<CodeAt>)
    requires k <= |toks| == |used|
    ensures forall c | c in r :: c.idx < k && IsValidCode(toks, valid, c.idx) && !used[c.idx] && c.code == [toks[c.idx].letter]
    ensures r == [] <==> forall i | 0 <= i < k :: IsValidCode(toks, valid, i) ==> used[i]
  {
    if k == 0 then []
    else
      var prev := UnusedCodes(toks, valid, used, k - 1);
      prev + (if !used[k - 1] && IsValidCode(toks, valid, k - 1) then [CodeAt(k - 1, [toks[k - 1].letter])] else [])
  }

  /** Gathering the unused numbers and the unused roster shortcodes, in one scan. */
  method CollectRemaining(toks: seq<Token>, valid: set<string>, used: seq<bool>) returns (nums: seq<NumAt>, codes: seq<CodeAt>)
    requires |used| == |toks|
    ensures nums == UnusedNums(toks, used, |toks|)
    ensures codes == UnusedCodes(toks, valid, used, |toks|)
  {
    nums, codes := [], [];
    var idx := 0;
    while idx < |toks|
      invariant 0 <= idx <= |toks|
      invariant nums == UnusedNums(toks, used, idx)
      invariant codes == UnusedCodes(toks, valid, used, idx)
    {
      var t := toks[idx];
      if !used[idx] {
        if t.Num? {
          nums := nums + [NumAt(idx, t.value)];
        }
        if t.Code? && [t.letter] in valid {
          codes := codes + [CodeAt(idx, [t.letter])];
        }
      }
      idx := idx + 1;
    }
  }

  /** After the adjacency pass no roster shortcode is left over. */
  lemma NoCodesRemain(toks: seq<Token>, valid: set<string>)
    ensures UnusedCodes(toks, valid, UsedMask(toks, valid), |toks|) == []
  {
    forall i | 0 <= i < |toks| && IsValidCode(toks, valid, i)
      ensures UsedMask(toks, valid)[i]
    {
      UsedAtEnd(toks, valid, i);
    }
  }

  // ------------------------------------------------------------ the nearest-match pass

  function Dist(a: nat, b: nat): nat
  {
    if a < b then b - a else a - b
  }

  /**
   * The index in `codes[..k]` of the shortcode nearest to token position `x`,
   * as the scan with a strict `<` finds it.
   */
  function NearestIn(x: nat, codes: seq<CodeAt>, k: nat): (r: Option<nat>)
    requires k <= |codes|
    ensures r.None? <==> k == 0
    ensures r.Some? ==> r.value < k
  {
    if k == 0 then None
    else
      var b := NearestIn(x, codes, k - 1);
      if b.None? || Dist(x, codes[k - 1].idx) < Dist(x, codes[b.value].idx) then Some(k - 1) else b
  }

  /** The scan picks a closest shortcode, and among equally close ones the first. */
  lemma {:induction false} NearestIsFirstMinimum(x: nat, codes: seq<CodeAt>, k: nat)
    requires 0 < k <= |codes|
    ensures var b := NearestIn(x, codes, k).value;
      forall m | 0 <= m < k ::
        Dist(x, codes[b].idx) <= Dist(x, codes[m].idx) && (m < b ==> Dist(x, codes[b].idx) < Dist(x, codes[m].idx))
  {
    if k > 1 {
      NearestIsFirstMinimum(x, codes, k - 1);
    }
  }

  /** `remainingCodes.findIndex(c => c.idx === idx)`. */
  function FindIdx(codes: seq<CodeAt>, idx: nat): (r: int)
    ensures -1 <= r < |codes|
    ensures r >= 0 ==> codes[r].idx == idx && forall p | 0 <= p < r :: codes[p].idx != idx
    ensures r < 0 ==> forall p | 0 <= p < |codes| :: codes[p].idx != idx
  {
    if codes == [] then -1
    else if codes[0].idx == idx then 0
    else
      var r := FindIdx(codes[1..], idx);
      if r < 0 then -1 else r + 1
  }

  /** The leftover shortcodes without the first one at token position `idx`. */
  function Splice(codes: seq<CodeAt>, idx: nat): (r: seq<CodeAt>)
    ensures var f := FindIdx(codes, idx);
      f >= 0 ==> |r| == |codes| - 1 && r[..f] == codes[..f] && r[f..] == codes[f + 1..]
    ensures var f := FindIdx(codes, idx);
      f >= 0 ==> multiset(r) + multiset{codes[f]} == multiset(codes)
    ensures FindIdx(codes, idx) < 0 ==> r == codes
  {
    var f := FindIdx(codes, idx);
    if f >= 0 then
      assert codes == codes[..f] + [codes[f]] + codes[f + 1..];
      codes[..f] + codes[f + 1..]
    else codes
  }

  /** The change map after pairing each leftover number, in order, with its nearest leftover shortcode. */
  function NearestFold(nums: seq<NumAt>, codes: seq<CodeAt>, changes: map<string, int>): (r: map<string, int>)
    ensures changes.Keys <= r.Keys
    decreases |nums|
  {
    if nums == [] then changes
    else
      match NearestIn(nums[0].idx, codes, |codes|)
      case None => NearestFold(nums[1..], codes, changes)
      case Some(b) =>
        NearestFold(nums[1..], Splice(codes, codes[b].idx), AddTo(changes, codes[b].code, nums[0].amount))
  }

  /** The nearest-match pass only adds to shortcodes that were left over. */
  lemma {:induction false} NearestFoldKeys(nums: seq<NumAt>, codes: seq<CodeAt>, changes: map<string, int>)
    ensures NearestFold(nums, codes, changes).Keys <= changes.Keys + set c | c in codes :: c.code
    decreases |nums|
  {
    if nums != [] {
      match NearestIn(nums[0].idx, codes, |codes|)
      case None =>
        NearestFoldKeys(nums[1..], codes, changes);
      case Some(b) =>
        var rest := Splice(codes, codes[b].idx);
        NearestFoldKeys(nums[1..], rest, AddTo(changes, codes[b].code, nums[0].amount));
        assert forall c | c in rest :: c in codes by {
          var f := FindIdx(codes, codes[b].idx);
          if f >= 0 {
            assert forall c | c in rest :: c in multiset(rest);
          }
        }
    }
  }

  /** With no shortcode left over, the nearest-match pass changes nothing. */
  lemma {:induction false} NearestFoldNoCodes(nums: seq<NumAt>, changes: map<string, int>)
    ensures NearestFold(nums, [], changes) == changes
    decreases |nums|
  {
    if nums != [] {
      NearestFoldNoCodes(nums[1..], changes);
    }
  }

  /** One number of the nearest-match pass, taken from position `i` of the leftovers. */
  lemma NearestFoldStep(nums: seq<NumAt>, i: nat, codes: seq<CodeAt>, changes: map<string, int>)
    requires i < |nums|
    ensures NearestFold(nums[i..], codes, changes) ==
      match NearestIn(nums[i].idx, codes, |codes|)
      case None => NearestFold(nums[i + 1..], codes, changes)
      case Some(b) => NearestFold(nums[i + 1..], Splice(codes, codes[b].idx), AddTo(changes, codes[b].code, nums[i].amount))
  {
    assert nums[i..][1..] == nums[i + 1..];
  }

  /** The inner scan: the first of the closest leftover shortcodes to token position `x`. */
  method NearestCode(x: nat, remaining: seq<CodeAt>) returns (best: Option<nat>)
    ensures best == NearestIn(x, remaining, |remaining|)
  {
    best := None;
    var k := 0;
    while k < |remaining|
      invariant 0 <= k <= |remaining|
      invariant best == NearestIn(x, remaining, k)
    {
      var d := Dist(x, remaining[k].idx);
      if best.None? || d < Dist(x, remaining[best.value].idx) {
        best := Some(k);
      }
      k := k + 1;
    }
  }

  /** The nearest-match pass, splicing each claimed shortcode out of the leftovers. */
  method NearestPass(nums: seq<NumAt>, codes: seq<CodeAt>, changes: map<string, int>) returns (out: map<string, int>)
    ensures out == NearestFold(nums, codes, changes)
    ensures codes == [] ==> out == changes
  {
    var remaining := codes;
    out := changes;
    var i := 0;
    assert nums[0..] == nums;
    while i < |nums|
      invariant 0 <= i <= |nums|
      invariant NearestFold(nums[i..], remaining, out) == NearestFold(nums, codes, changes)
    {
      var n := nums[i];
      var best := NearestCode(n.idx, remaining);
      NearestFoldStep(nums, i, remaining, out);
      if best.Some? {
        var b := remaining[best.value];
        ghost var spliced := Splice(remaining, b.idx);
        out := AddTo(out, b.code, n.amount);
        var f := FindIdx(remaining, b.idx);
        if f >= 0 {
          remaining := remaining[..f] + remaining[f + 1..];
        }
        assert remaining == spliced;
      }
      i := i + 1;
    }
    assert nums[i..] == [];
    if codes == [] {
      NearestFoldNoCodes(nums, changes);
    }
  }

  // ------------------------------------------------------------ the whole line

  datatype ParseError = BlankLine | NoInstructions

  /** The outcome of parsing a line against the roster's shortcodes, pass by pass as the source runs them. */
  function ParseResult(line: string, valid: set<string>): (r: Result<map<string, int>, ParseError>)
    ensures r.Ok? ==> r.value != map[] && r.value.Keys <= valid
  {
    var input := Trim(line);
    if input == [] then Err(BlankLine)
    else
      var toks := Tokenize(input);
      var used := UsedMask(toks, valid);
      AdjChangesKeysValid(toks, valid);
      NearestFoldKeys(UnusedNums(toks, used, |toks|), UnusedCodes(toks, valid, used, |toks|), AdjChanges(toks, valid));
      var changes := NearestFold(UnusedNums(toks, used, |toks|), UnusedCodes(toks, valid, used, |toks|), AdjChanges(toks, valid));
      if changes == map[] then Err(NoInstructions) else Ok(changes)
  }

  /**
   * The nearest-match pass never contributes: a non-blank line yields exactly
   * the adjacency pass's change map, or the no-instructions error when that
   * map is empty.
   */
  lemma ParseByAdjacencyAlone(line: string, valid: set<string>)
    ensures AllSpace(line) ==> ParseResult(line, valid) == Err(BlankLine)
    ensures !AllSpace(line) ==>
      var m := AdjChanges(Tokenize(line), valid);
      ParseResult(line, valid) == if m == map[] then Err(NoInstructions) else Ok(m)
  {
    TrimEmptyIffBlank(line);
    var toks := Tokenize(Trim(line));
    TokenizeTrim(line);
    NoCodesRemain(toks, valid);
    NearestFoldNoCodes(UnusedNums(toks, UsedMask(toks, valid), |toks|), AdjChanges(toks, valid));
  }

  /**
   * The parser's outcomes: the blank-line error exactly for a blank line, the
   * no-instructions error exactly when no roster shortcode has a number next
   * to it, and otherwise the adjacency pass's non-empty change map, keyed by
   * roster shortcodes.
   */
  lemma ParseResultCases(line: string, valid: set<string>)
    ensures ParseResult(line, valid) == Err(BlankLine) <==> AllSpace(line)
    ensures ParseResult(line, valid) == Err(NoInstructions) <==>
      !AllSpace(line) && forall i | 0 <= i < |Tokenize(line)| ::
        IsValidCode(Tokenize(line), valid, i) ==> !IsNumAt(Tokenize(line), i - 1) && !IsNumAt(Tokenize(line), i + 1)
    ensures ParseResult(line, valid).Ok? ==>
      var m := ParseResult(line, valid).value;
      m == AdjChanges(Tokenize(line), valid) && m != map[] && m.Keys <= valid
  {
    ParseByAdjacencyAlone(line, valid);
    AdjChangesKeysValid(Tokenize(line), valid);
    AdjChangesEmptyIff(Tokenize(line), valid);
  }

  /**
   * Parsing a transaction line: trim, reject a blank line, tokenize, run the
   * two pairing passes and reject an empty change map.
   */
  method ParseLine(line: string, valid: set<string>) returns (r: Result<map<string, int>, ParseError>)
    ensures r == ParseResult(line, valid)
  {
    var input := Trim(line);
    if input == [] {
      return Err(BlankLine);
    }
    var toks := Tokenize(input);
    var used, changes := AdjacencyPass(toks, valid);
    var nums, codes := CollectRemaining(toks, valid, used);
    changes := NearestPass(nums, codes, changes);
    if changes == map[] {
      return Err(NoInstructions);
    }
    return Ok(changes);
  }
}
