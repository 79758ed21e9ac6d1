/** The running maximum every scan tick performs: `best_rssi` starts at -999
    and an access point replaces the current best only when its RSSI is
    strictly greater, so the first AP in list order wins a tie. An AP whose
    evaluation raised is `None` and is skipped. */
module Selection {
  import opened Wrappers

  /** Access point names are non-empty, so Python's truthiness tests on
      `best_ap` and `last_ap` are `Some?` here. */
  type ApName = s: string | |s| > 0 witness "modem"

  /** The initial `best_rssi`. */
  const Unset: real := -999.0

  /** `best_rssi` for the AP `b` names, or the initial value when there is none. */
  function BestRssi(vals: seq<Option<real>>, b: Option<nat>): real {
    if b.Some? && b.value < |vals| && vals[b.value].Some? then vals[b.value].value else Unset
  }

  /** The replacement test `if rssi > best_rssi`. */
  predicate Beats(v: Option<real>, best: real) {
    v.Some? && v.value > best
  }

  /** Among the first `n` evaluations, `k` is the first one attaining the
      maximum, and that maximum is above the initial -999. */
  ghost predicate IsFirstBestIn(vals: seq<Option<real>>, n: nat, k: nat) {
    && k < n <= |vals|
    && vals[k].Some? && vals[k].value > Unset
    && (forall j :: 0 <= j < k ==> vals[j].None? || vals[j].value < vals[k].value)
    && (forall j :: k < j < n ==> vals[j].None? || vals[j].value <= vals[k].value)
  }

  /** No evaluation among the first `n` got above the initial -999. */
  ghost predicate NoneAboveUnsetIn(vals: seq<Option<real>>, n: nat)
    requires n <= |vals|
  {
    forall j :: 0 <= j < n ==> vals[j].None? || vals[j].value <= Unset
  }

  ghost predicate IsFirstBest(vals: seq<Option<real>>, k: nat) {
    IsFirstBestIn(vals, |vals|, k)
  }

  ghost predicate NoneAboveUnset(vals: seq<Option<real>>) {
    NoneAboveUnsetIn(vals, |vals|)
  }

  /** The selection after the loop has looked at the first `n` APs. */
  function SelectPrefix(vals: seq<Option<real>>, n: nat): (r: Option<nat>)
    requires n <= |vals|
    ensures r.Some? ==> r.value < n && vals[r.value].Some? && vals[r.value].value > Unset
    decreases n
  {
    if n == 0 then None
    else
      var b := SelectPrefix(vals, n - 1);
      if Beats(vals[n - 1], BestRssi(vals, b)) then Some(n - 1) else b
  }

  /** The AP the whole loop selects. */
  function Select(vals: seq<Option<real>>): (r: Option<nat>)
    ensures r.Some? ==> r.value < |vals| && vals[r.value].Some? && vals[r.value].value > Unset
  {
    SelectPrefix(vals, |vals|)
  }

  /** After `n` steps the loop holds the first AP with the maximal RSSI among
      the first `n`, or nothing when none of them got above -999. */
  lemma {:induction false} SelectPrefixCorrect(vals: seq<Option<real>>, n: nat)
    requires n <= |vals|
    ensures var r := SelectPrefix(vals, n);
      && (r.Some? ==> IsFirstBestIn(vals, n, r.value))
      && (r.None? ==> NoneAboveUnsetIn(vals, n))
    decreases n
  {
    if n > 0 {
      SelectPrefixCorrect(vals, n - 1);
    }
  }

  /** The selected index is unique, and "nothing selected" excludes a selection. */
  lemma SelectionDetermined(vals: seq<Option<real>>, k: nat, k': nat)
    requires IsFirstBest(vals, k)
    ensures !NoneAboveUnset(vals)
    ensures IsFirstBest(vals, k') ==> k == k'
  {
  }

  /** `Select` is exactly first-wins argmax above -999. */
  lemma SelectCorrect(vals: seq<Option<real>>)
    ensures Select(vals).None? <==> NoneAboveUnset(vals)
    ensures forall k: nat :: Select(vals) == Some(k) <==> IsFirstBest(vals, k)
  {
    SelectPrefixCorrect(vals, |vals|);
    var r := Select(vals);
    if r.Some? {
      forall k: nat | IsFirstBest(vals, k) ensures k == r.value {
        SelectionDetermined(vals, r.value, k);
      }
    }
  }

  /** `k` is the first index attaining the maximum of `vals`. */
  ghost predicate IsFirstMax(vals: seq<real>, k: nat) {
    && k < |vals|
    && (forall j :: 0 <= j < k ==> vals[j] < vals[k])
    && (forall j :: k < j < |vals| ==> vals[j] <= vals[k])
  }

  /** Python's `max(items, key=...)` over the first `n` keys: it keeps the
      first item and replaces the current one only by a strictly greater key. */
  function FirstMaxPrefix(vals: seq<real>, n: nat): (r: nat)
    requires 0 < n <= |vals|
    ensures r < n
    decreases n
  {
    if n == 1 then 0
    else
      var b := FirstMaxPrefix(vals, n - 1);
      if vals[n - 1] > vals[b] then n - 1 else b
  }

  /** `max(items, key=...) if items else None`. */
  function FirstMax(vals: seq<real>): (r: Option<nat>)
    ensures r.None? <==> vals == []
  {
    if vals == [] then None else Some(FirstMaxPrefix(vals, |vals|))
  }

  lemma {:induction false} FirstMaxPrefixCorrect(vals: seq<real>, n: nat)
    requires 0 < n <= |vals|
    ensures IsFirstMax(vals[..n], FirstMaxPrefix(vals, n))
    decreases n
  {
    if n > 1 {
      FirstMaxPrefixCorrect(vals, n - 1);
      assert forall j :: 0 <= j < n - 1 ==> vals[..n - 1][j] == vals[..n][j];
    }
  }

  /** `FirstMax` is exactly first-wins argmax, and it picks nothing only
      from an empty list. */
  lemma FirstMaxCorrect(vals: seq<real>)
    ensures forall k: nat :: FirstMax(vals) == Some(k) <==> IsFirstMax(vals, k)
  {
    if vals != [] {
      FirstMaxPrefixCorrect(vals, |vals|);
      assert vals[..|vals|] == vals;
    }
  }
}
