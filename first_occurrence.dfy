/** "Keep the first occurrence of each key": the de-duplication rule shared by
    the top-3 diagnosis filter (keyed by disease label) and by the corpus
    clean-up (keyed by the whole `(label, text)` row). */
module FirstOccurrence {

  /** Position `p` of `keys` holds the first occurrence of its key. */
  predicate IsFirst<K(==)>(keys: seq<K>, p: nat)
  {
    p < |keys| && forall q :: 0 <= q < p ==> keys[q] != keys[p]
  }

  /** The positions below `n` that hold the first occurrence of their key,
      in increasing order: exactly the positions a left-to-right scan with a
      "seen" set keeps. */
  function FirstPositions<K(==)>(keys: seq<K>, n: nat): (ps: seq<nat>)
    requires n <= |keys|
    ensures forall k :: 0 <= k < |ps| ==> ps[k] < n && IsFirst(keys, ps[k])
    ensures forall k, l :: 0 <= k < l < |ps| ==> ps[k] < ps[l]
    ensures forall p :: 0 <= p < n && IsFirst(keys, p) ==> p in ps
  {
    if n == 0 then []
    else FirstPositions(keys, n - 1) + (if IsFirst(keys, n - 1) then [n - 1] else [])
  }

  /** The keys occurring among the first `n` positions. */
  function KeysBelow<K>(keys: seq<K>, n: nat): set<K>
    requires n <= |keys|
  {
    set q | 0 <= q < n :: keys[q]
  }

  /** `s` restricted to the positions `ps`, in the order of `ps`. */
  function Pick<T>(s: seq<T>, ps: seq<nat>): (r: seq<T>)
    requires forall k :: 0 <= k < |ps| ==> ps[k] < |s|
    ensures |r| == |ps|
  {
    seq(|ps|, k requires 0 <= k < |ps| => s[ps[k]])
  }

  /** `s` without repeated elements: the first occurrence of each is kept. */
  function KeepFirst<T(==)>(s: seq<T>): seq<T>
  {
    Pick(s, FirstPositions(s, |s|))
  }

  /** `r` is `s` restricted to the strictly increasing positions `ps`. */
  ghost predicate SubsequenceAt<T>(r: seq<T>, s: seq<T>, ps: seq<nat>)
  {
    && |ps| == |r|
    && (forall k :: 0 <= k < |ps| ==> ps[k] < |s| && r[k] == s[ps[k]])
    && (forall k, l :: 0 <= k < l < |ps| ==> ps[k] < ps[l])
  }

  /** `r` is an order-preserving subsequence of `s`. */
  ghost predicate IsSubsequence<T>(r: seq<T>, s: seq<T>)
  {
    exists ps :: SubsequenceAt(r, s, ps)
  }

  /** No element occurs twice in `s`. */
  predicate NoDuplicates<T(==)>(s: seq<T>)
  {
    forall k, l :: 0 <= k < l < |s| ==> s[k] != s[l]
  }

  /** Scanning further only appends: the kept positions below `m` are a
      prefix of those below `n`. */
  lemma {:induction false} FirstPositionsPrefix<K>(keys: seq<K>, m: nat, n: nat)
    requires m <= n <= |keys|
    ensures FirstPositions(keys, m) <= FirstPositions(keys, n)
  {
    if m < n {
      FirstPositionsPrefix(keys, m, n - 1);
    }
  }

  /** One step of the scan: position `n` is kept exactly when its key was not
      seen among the positions before it. */
  lemma FirstPositionsStep<K>(keys: seq<K>, n: nat)
    requires n < |keys|
    ensures IsFirst(keys, n) <==> keys[n] !in KeysBelow(keys, n)
    ensures FirstPositions(keys, n + 1)
         == FirstPositions(keys, n) + (if keys[n] in KeysBelow(keys, n) then [] else [n])
    ensures KeysBelow(keys, n + 1) == KeysBelow(keys, n) + {keys[n]}
  {
    if !IsFirst(keys, n) {
      var q :| 0 <= q < n && keys[q] == keys[n];
      assert keys[q] in KeysBelow(keys, n);
    }
  }

  /** The keys at kept positions are pairwise distinct. */
  lemma KeptKeysDistinct<K>(keys: seq<K>, n: nat)
    requires n <= |keys|
    ensures NoDuplicates(Pick(keys, FirstPositions(keys, n)))
  {
    var ps := FirstPositions(keys, n);
    var r := Pick(keys, ps);
    forall k, l | 0 <= k < l < |r| ensures r[k] != r[l] {
      assert ps[k] < ps[l] && IsFirst(keys, ps[l]);
    }
  }

  /** Every position's key is the key of some kept position at or before it. */
  lemma KeptKeysCover<K>(keys: seq<K>, n: nat, p: nat)
    requires p < n <= |keys|
    ensures exists k :: 0 <= k < |FirstPositions(keys, n)|
                        && FirstPositions(keys, n)[k] <= p
                        && keys[FirstPositions(keys, n)[k]] == keys[p]
  {
    var p0 := 0;
    while keys[p0] != keys[p]
      invariant p0 <= p
      invariant forall q :: 0 <= q < p0 ==> keys[q] != keys[p]
      decreases p - p0
    {
      p0 := p0 + 1;
    }
    assert IsFirst(keys, p0);
    var ps := FirstPositions(keys, n);
    var k :| 0 <= k < |ps| && ps[k] == p0;
  }

  /** One position is kept per distinct key. */
  lemma {:induction false} KeptCountIsDistinctKeys<K>(keys: seq<K>, n: nat)
    requires n <= |keys|
    ensures |FirstPositions(keys, n)| == |KeysBelow(keys, n)|
  {
    if n == 0 {
      assert KeysBelow(keys, 0) == {};
    } else {
      KeptCountIsDistinctKeys(keys, n - 1);
      FirstPositionsStep(keys, n - 1);
      var below := KeysBelow(keys, n - 1);
      if keys[n - 1] !in below {
        assert |below + {keys[n - 1]}| == |below| + 1;
      } else {
        assert below + {keys[n - 1]} == below;
      }
    }
  }

  /** `KeepFirst` keeps the order, drops exactly the repeats, and loses no
      element. */
  lemma KeepFirstSpec<T>(s: seq<T>)
    ensures IsSubsequence(KeepFirst(s), s)
    ensures NoDuplicates(KeepFirst(s))
    ensures forall p :: 0 <= p < |s| ==> s[p] in KeepFirst(s)
    ensures forall x :: x in KeepFirst(s) ==> x in s
    ensures |KeepFirst(s)| == |KeysBelow(s, |s|)|
  {
    var ps := FirstPositions(s, |s|);
    assert SubsequenceAt(KeepFirst(s), s, ps);
    KeptKeysDistinct(s, |s|);
    forall p | 0 <= p < |s| ensures s[p] in KeepFirst(s) {
      KeptKeysCover(s, |s|, p);
      var k :| 0 <= k < |ps| && ps[k] <= p && s[ps[k]] == s[p];
      assert KeepFirst(s)[k] == s[p];
    }
    KeptCountIsDistinctKeys(s, |s|);
  }
}
