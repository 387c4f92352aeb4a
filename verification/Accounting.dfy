/** Byte counts and plain sums of byte counts over finite sets of keys. */
module Accounting {
  const U64_MAX: nat := 0xffff_ffff_ffff_ffff

  datatype ByteCount = ByteCount(upload: nat, download: nat)

  /** Both directions, and their sum, fit in 64 bits. */
  predicate Fits(a: ByteCount) {
    a.upload + a.download <= U64_MAX
  }

  predicate Covers(a: ByteCount, b: ByteCount) {
    b.upload <= a.upload && b.download <= a.download
  }

  predicate IsZero(a: ByteCount) {
    a.upload == 0 && a.download == 0
  }

  /** `c` is `a` and `b` added direction by direction. */
  predicate IsSum(c: ByteCount, a: ByteCount, b: ByteCount) {
    c.upload == a.upload + b.upload && c.download == a.download + b.download
  }

  /** The count at a key, nothing where there is none. */
  function At<K>(m: map<K, ByteCount>, k: K): ByteCount {
    if k in m then m[k] else ByteCount(0, 0)
  }

  ghost function Pick<K>(keys: set<K>): (k: K)
    requires keys != {}
    ensures k in keys
  {
    var k :| k in keys; k
  }

  /** The plain sum of `f` over `keys`, in whatever order. */
  ghost function Sum<K>(keys: set<K>, f: map<K, nat>): nat
    requires keys <= f.Keys
  {
    if keys == {} then 0
    else f[Pick(keys)] + Sum(keys - {Pick(keys)}, f)
  }

  /** Any key may be summed first, so the order of summation is immaterial. */
  lemma {:induction false} SumPull<K>(keys: set<K>, f: map<K, nat>, k: K)
    requires k in keys && keys <= f.Keys
    ensures Sum(keys, f) == f[k] + Sum(keys - {k}, f)
  {
    var j := Pick(keys);
    if j != k {
      SumPull(keys - {j}, f, k);
      SumPull(keys - {k}, f, j);
      assert keys - {j} - {k} == keys - {k} - {j};
    }
  }

  /** A sum depends only on the values at the summed keys. */
  lemma {:induction false} SumAgrees<K>(keys: set<K>, f: map<K, nat>, g: map<K, nat>)
    requires keys <= f.Keys && keys <= g.Keys
    requires forall k :: k in keys ==> f[k] == g[k]
    ensures Sum(keys, f) == Sum(keys, g)
  {
    if keys != {} {
      SumAgrees(keys - {Pick(keys)}, f, g);
    }
  }

  /** Sums over disjoint sets of keys add up. */
  lemma {:induction false} SumUnion<K>(xs: set<K>, ys: set<K>, f: map<K, nat>)
    requires xs !! ys && xs <= f.Keys && ys <= f.Keys
    ensures Sum(xs + ys, f) == Sum(xs, f) + Sum(ys, f)
  {
    if xs == {} {
      assert xs + ys == ys;
    } else {
      var k := Pick(xs);
      var rest, all := xs - {k}, xs + ys;
      SumPull(all, f, k);
      assert all - {k} == rest + ys;
      SumUnion(rest, ys, f);
    }
  }

  ghost function Uploads<K>(f: map<K, ByteCount>): map<K, nat> {
    map k | k in f :: f[k].upload
  }

  ghost function Downloads<K>(f: map<K, ByteCount>): map<K, nat> {
    map k | k in f :: f[k].download
  }

  /** Byte counts summed direction by direction. */
  ghost function Total<K>(keys: set<K>, f: map<K, ByteCount>): ByteCount
    requires keys <= f.Keys
  {
    ByteCount(Sum(keys, Uploads(f)), Sum(keys, Downloads(f)))
  }

  lemma TotalPull<K>(keys: set<K>, f: map<K, ByteCount>, k: K)
    requires k in keys && keys <= f.Keys
    ensures IsSum(Total(keys, f), f[k], Total(keys - {k}, f))
  {
    SumPull(keys, Uploads(f), k);
    SumPull(keys, Downloads(f), k);
  }

  lemma TotalAgrees<K>(keys: set<K>, f: map<K, ByteCount>, g: map<K, ByteCount>)
    requires keys <= f.Keys && keys <= g.Keys
    requires forall k :: k in keys ==> f[k] == g[k]
    ensures Total(keys, f) == Total(keys, g)
  {
    SumAgrees(keys, Uploads(f), Uploads(g));
    SumAgrees(keys, Downloads(f), Downloads(g));
  }

  lemma TotalUnion<K>(xs: set<K>, ys: set<K>, f: map<K, ByteCount>)
    requires xs !! ys && xs <= f.Keys && ys <= f.Keys
    ensures IsSum(Total(xs + ys, f), Total(xs, f), Total(ys, f))
  {
    SumUnion(xs, ys, Uploads(f));
    SumUnion(xs, ys, Downloads(f));
  }
}
