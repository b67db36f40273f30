/** A property bag as the application handles it: a Python dict from text
    keys to text values. Python dicts keep insertion order, and the hover text
    of the visualization lists entries in that order, so the bag is an
    association list whose keys are distinct. */
module Props {
  import opened Wrappers

  type Props = seq<(string, string)>

  ghost predicate DistinctKeys(p: Props) {
    forall i, j :: 0 <= i < j < |p| ==> p[i].0 != p[j].0
  }

  /** Some entry of `p` has key `k`. */
  predicate HasKey(p: Props, k: string) {
    exists i :: 0 <= i < |p| && p[i].0 == k
  }

  /** The index of the first entry whose key is `k`, or `|p|` when none has. */
  function FirstIndex(p: Props, k: string): (i: nat)
    ensures i <= |p|
    ensures i < |p| ==> p[i].0 == k
  {
    if |p| == 0 then 0
    else if p[0].0 == k then 0
    else FirstIndex(p[1..], k) + 1
  }

  /** `p.get(k)`: present when some entry has key `k`; which value it is,
      is stated by `GetFirstEntry`. */
  function Get(p: Props, k: string): (r: Option<string>)
    ensures r.Some? <==> HasKey(p, k)
  {
    if |p| == 0 then None
    else if p[0].0 == k then Some(p[0].1)
    else Get(p[1..], k)
  }

  /** `p.get(k)` is the value of the first entry whose key is `k`: that entry
      lies at `FirstIndex(p, k)`, and no entry before it has key `k`. */
  lemma {:induction false} GetFirstEntry(p: Props, k: string)
    ensures Get(p, k).Some? <==> FirstIndex(p, k) < |p|
    ensures Get(p, k).Some? ==> p[FirstIndex(p, k)] == (k, Get(p, k).value)
    ensures forall j :: 0 <= j < FirstIndex(p, k) ==> p[j].0 != k
  {
    if |p| > 0 && p[0].0 != k {
      GetFirstEntry(p[1..], k);
      forall j | 0 <= j < FirstIndex(p, k)
        ensures p[j].0 != k
      {
        if j > 0 {
          assert p[j] == p[1..][j - 1];
        }
      }
      if HasKey(p, k) {
        var m :| 0 <= m < |p| && p[m].0 == k;
        assert p[1..][m - 1].0 == k;
      }
    }
  }

  /** In a dict, every entry is what `get` returns for its key. */
  lemma GetEntry(p: Props, i: int)
    requires DistinctKeys(p) && 0 <= i < |p|
    ensures Get(p, p[i].0) == Some(p[i].1)
  {
    GetFirstEntry(p, p[i].0);
  }

  /** `p[k] = v`: an existing key keeps its position and takes the new value,
      a new key goes to the end. */
  function Put(p: Props, k: string, v: string): (r: Props)
    ensures Get(r, k) == Some(v)
    ensures forall j :: j != k ==> Get(r, j) == Get(p, j)
    ensures Get(p, k).Some? ==> |r| == |p| && forall i :: 0 <= i < |p| ==> r[i].0 == p[i].0
    ensures Get(p, k).None? ==> r == p + [(k, v)]
    ensures DistinctKeys(p) ==> DistinctKeys(r)
  {
    if |p| == 0 then [(k, v)]
    else if p[0].0 == k then [(k, v)] + p[1..]
    else [p[0]] + Put(p[1..], k, v)
  }

  /** The dict obtained by starting from `{}` and performing `p[k] = v` for
      each present update `(k, v)`, in order. */
  function Assign(updates: seq<Option<(string, string)>>): Props {
    if |updates| == 0 then []
    else
      var p := Assign(updates[..|updates| - 1]);
      match updates[|updates| - 1]
      case None => p
      case Some((k, v)) => Put(p, k, v)
  }

  /** Update `i` assigns key `k`. */
  predicate Assigns(updates: seq<Option<(string, string)>>, i: int, k: string) {
    0 <= i < |updates| && updates[i].Some? && updates[i].value.0 == k
  }

  /** Update `i` is the last one that assigns `k`. */
  predicate LastAssigns(updates: seq<Option<(string, string)>>, i: int, k: string) {
    Assigns(updates, i, k) && forall j :: i < j < |updates| ==> !Assigns(updates, j, k)
  }

  /** The last update sets its key and leaves every other key as it was. */
  lemma AssignStep(updates: seq<Option<(string, string)>>, k: string)
    requires |updates| > 0
    ensures Assigns(updates, |updates| - 1, k) ==>
      Get(Assign(updates), k) == Some(updates[|updates| - 1].value.1)
    ensures !Assigns(updates, |updates| - 1, k) ==>
      Get(Assign(updates), k) == Get(Assign(updates[..|updates| - 1]), k)
  {
  }

  lemma {:induction false} AssignDistinct(updates: seq<Option<(string, string)>>)
    ensures DistinctKeys(Assign(updates))
  {
    if |updates| > 0 {
      AssignDistinct(updates[..|updates| - 1]);
    }
  }

  /** A key is present exactly when some update assigns it. */
  lemma {:induction false} AssignKeys(updates: seq<Option<(string, string)>>, k: string)
    ensures Get(Assign(updates), k).Some? <==> exists i :: Assigns(updates, i, k)
  {
    if |updates| > 0 {
      var init := updates[..|updates| - 1];
      AssignKeys(init, k);
      AssignStep(updates, k);
      if exists i :: Assigns(init, i, k) {
        var i :| Assigns(init, i, k);
        assert Assigns(updates, i, k);
      }
      if exists i :: Assigns(updates, i, k) {
        var i :| Assigns(updates, i, k);
        if i < |updates| - 1 {
          assert Assigns(init, i, k);
        }
      }
    }
  }

  /** A present key holds the value of the last update that assigns it; `i` is
      that update. */
  lemma {:induction false} AssignValue(updates: seq<Option<(string, string)>>, k: string) returns (i: int)
    requires Get(Assign(updates), k).Some?
    ensures LastAssigns(updates, i, k)
    ensures Get(Assign(updates), k).value == updates[i].value.1
  {
    var last := |updates| - 1;
    var init := updates[..last];
    AssignStep(updates, k);
    if Assigns(updates, last, k) {
      i := last;
    } else {
      i := AssignValue(init, k);
      LastAssignsExtend(updates, i, k);
    }
  }

  /** The last assignment of `k` in all but the final update stays the last
      one when the final update does not assign `k`. */
  lemma LastAssignsExtend(updates: seq<Option<(string, string)>>, i: int, k: string)
    requires |updates| > 0 && LastAssigns(updates[..|updates| - 1], i, k)
    requires !Assigns(updates, |updates| - 1, k)
    ensures LastAssigns(updates, i, k) && updates[i] == updates[..|updates| - 1][i]
  {
    var init := updates[..|updates| - 1];
    assert updates[i] == init[i];
    forall j | i < j < |updates|
      ensures !Assigns(updates, j, k)
    {
      if j < |updates| - 1 {
        assert updates[j] == init[j];
        assert !Assigns(init, j, k);
      }
    }
  }
}
