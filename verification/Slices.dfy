/** Concatenations and the slices that undo them. */
module Slices {

  /** A slice inside a known slice. */
  lemma SubSlice<T>(s: seq<T>, part: seq<T>, at: nat, i: nat, j: nat)
    requires at + |part| <= |s| && s[at..at + |part|] == part && i <= j <= |part|
    ensures s[at + i..at + j] == part[i..j]
  {
    forall k | 0 <= k < j - i ensures s[at + i..at + j][k] == part[i..j][k] {
      assert s[at..at + |part|][i + k] == part[i + k];
    }
  }

  /** The next part after a known prefix. */
  lemma Append<T>(s: seq<T>, t: seq<T>)
    ensures (s + t)[..|s|] == s && (s + t)[|s|..] == t && (s + t)[|s|..|s| + |t|] == t
  {
  }

  /** Slices of a prefix survive appending. */
  lemma Keep<T>(s: seq<T>, t: seq<T>, i: nat, j: nat)
    requires i <= j <= |s|
    ensures (s + t)[i..j] == s[i..j]
  {
  }

  /** A sequence is its slices at any cut. */
  lemma Cut<T>(s: seq<T>, i: nat, j: nat, k: nat)
    requires i <= j <= k <= |s|
    ensures s[i..k] == s[i..j] + s[j..k]
  {
  }

  lemma Parts4<T>(a: seq<T>, b: seq<T>, c: seq<T>, d: seq<T>)
    ensures var s := a + b + c + d;
            && s[0..|a|] == a
            && s[|a|..|a| + |b|] == b
            && s[|a| + |b|..|a| + |b| + |c|] == c
            && s[|a| + |b| + |c|..|a| + |b| + |c| + |d|] == d
  {
    Append(a, b);
    Append(a + b, c);
    Append(a + b + c, d);
    Keep(a + b, c, 0, |a|);
    Keep(a + b, c, |a|, |a| + |b|);
    Keep(a + b + c, d, 0, |a|);
    Keep(a + b + c, d, |a|, |a| + |b|);
    Keep(a + b + c, d, |a| + |b|, |a| + |b| + |c|);
  }

  lemma Parts6<T>(a: seq<T>, b: seq<T>, c: seq<T>, d: seq<T>, e: seq<T>, f: seq<T>)
    ensures var s := a + b + c + d + e + f;
            var n := |a| + |b| + |c| + |d|;
            && s[0..|a|] == a
            && s[|a|..|a| + |b|] == b
            && s[|a| + |b|..|a| + |b| + |c|] == c
            && s[|a| + |b| + |c|..n] == d
            && s[n..n + |e|] == e
            && s[n + |e|..n + |e| + |f|] == f
  {
    Parts4(a, b, c, d);
    Parts4(a + b + c + d, e, f, []);
    var p := a + b + c + d;
    assert p + e + f == p + e + f + [];
    assert p + e + f == p + (e + f);
    Keep(p, e + f, 0, |a|);
    Keep(p, e + f, |a|, |a| + |b|);
    Keep(p, e + f, |a| + |b|, |a| + |b| + |c|);
    Keep(p, e + f, |a| + |b| + |c|, |p|);
  }

  function Flatten<T>(parts: seq<seq<T>>): seq<T> {
    if parts == [] then [] else Flatten(parts[..|parts| - 1]) + parts[|parts| - 1]
  }

  ghost predicate AllWidth<T>(parts: seq<seq<T>>, w: nat) {
    forall i :: 0 <= i < |parts| ==> |parts[i]| == w
  }

  lemma {:induction false} FlattenWidth<T>(parts: seq<seq<T>>, w: nat)
    requires AllWidth(parts, w)
    ensures |Flatten(parts)| == w * |parts|
  {
    if parts != [] {
      var n := |parts| - 1;
      FlattenWidth(parts[..n], w);
      assert w * |parts| == w * n + w;
    }
  }

  /** The last part of equal-width parts, after the others. */
  lemma FlattenLast<T>(parts: seq<seq<T>>, w: nat)
    requires AllWidth(parts, w) && parts != []
    ensures var n := |parts| - 1;
            && |Flatten(parts[..n])| == w * n && w * |parts| == w * n + w
            && Flatten(parts) == Flatten(parts[..n]) + parts[n]
  {
    var n := |parts| - 1;
    FlattenWidth(parts[..n], w);
    assert w * (n + 1) == w * n + w;
  }

  /** Equal-width parts are found again at their multiples. */
  lemma {:induction false} FlattenSlice<T>(parts: seq<seq<T>>, w: nat, i: nat)
    requires AllWidth(parts, w) && i < |parts|
    ensures |Flatten(parts)| == w * |parts| && w * i + w <= w * |parts|
    ensures Flatten(parts)[w * i..w * i + w] == parts[i]
  {
    var n := |parts| - 1;
    FlattenLast(parts, w);
    var front := Flatten(parts[..n]);
    if i < n {
      FlattenSlice(parts[..n], w, i);
      Keep(front, parts[n], w * i, w * i + w);
    } else {
      Append(front, parts[n]);
    }
  }

  lemma {:induction false} FlattenAppend<T>(a: seq<seq<T>>, b: seq<seq<T>>)
    ensures Flatten(a + b) == Flatten(a) + Flatten(b)
  {
    if b == [] {
      assert a + b == a;
    } else {
      var n := |b| - 1;
      assert (a + b)[..|a + b| - 1] == a + b[..n];
      FlattenAppend(a, b[..n]);
      var x, y, z := Flatten(a), Flatten(b[..n]), b[n];
      assert (x + y) + z == x + (y + z);
    }
  }

  lemma {:induction false} MulLess(w: nat, i: nat, n: nat)
    requires i < n
    ensures w * i + w <= w * n
    decreases n
  {
    assert w * n == w * (n - 1) + w;
    if i < n - 1 {
      MulLess(w, i, n - 1);
    }
  }

  /** The slice of width `w` number `i`. */
  function Chunk<T>(s: seq<T>, w: nat, i: nat): seq<T>
    requires w * i + w <= |s|
  {
    s[w * i..w * i + w]
  }

  /** A sequence whose equal-width slices are the given parts is their concatenation. */
  lemma {:induction false} FlattenOfSlices<T>(s: seq<T>, parts: seq<seq<T>>, w: nat)
    requires AllWidth(parts, w) && |s| == w * |parts|
    requires forall i :: 0 <= i < |parts| ==> w * i + w <= |s| && Chunk(s, w, i) == parts[i]
    ensures s == Flatten(parts)
  {
    if parts != [] {
      var n := |parts| - 1;
      assert w * |parts| == w * n + w;
      assert Chunk(s, w, n) == parts[n];
      var front := s[..w * n];
      forall i | 0 <= i < n ensures w * i + w <= |front| && Chunk(front, w, i) == parts[i] {
        MulLess(w, i, n);
        assert Chunk(s, w, i) == parts[i];
        ChunkOfPrefix(s, w, i, w * n);
      }
      FlattenOfSlices(front, parts[..n], w);
      assert s == front + parts[n];
    }
  }

  lemma ChunkOfPrefix<T>(s: seq<T>, w: nat, i: nat, k: nat)
    requires w * i + w <= k <= |s|
    ensures Chunk(s[..k], w, i) == Chunk(s, w, i)
  {
  }
}
