/** Byte strings and their lexicographic order, the order of Go strings and of bytes.Compare. */
module Bytes {

  newtype Byte = x: int | 0 <= x < 256

  type ByteString = seq<Byte>

  predicate Less(a: ByteString, b: ByteString) {
    b != [] && (a == [] || a[0] < b[0] || (a[0] == b[0] && Less(a[1..], b[1..])))
  }

  /** At place `k` the two part: there `a` ends first, or has the smaller byte. */
  predicate PartAt(a: ByteString, b: ByteString, k: nat) {
    k <= |a| && k < |b| && a[..k] == b[..k] && (k == |a| || a[k] < b[k])
  }

  /** One string is less exactly when it ends, or has the smaller byte, where the two first differ. */
  lemma {:induction false} LessIff(a: ByteString, b: ByteString)
    ensures Less(a, b) <==> exists k: nat :: PartAt(a, b, k)
  {
    if a == [] || b == [] || a[0] != b[0] {
      if Less(a, b) {
        assert PartAt(a, b, 0);
      }
      if k: nat :| PartAt(a, b, k) {
        assert k > 0 ==> a[..k][0] == b[..k][0];
      }
    } else {
      LessIff(a[1..], b[1..]);
      if k: nat :| PartAt(a[1..], b[1..], k) {
        assert a[..k + 1] == [a[0]] + a[1..][..k] && b[..k + 1] == [b[0]] + b[1..][..k];
        assert PartAt(a, b, k + 1);
      }
      if k: nat :| PartAt(a, b, k) {
        assert a[1..][..k - 1] == a[..k][1..] && b[1..][..k - 1] == b[..k][1..];
        assert PartAt(a[1..], b[1..], k - 1);
      }
    }
  }

  lemma {:induction false} LessIrreflexive(a: ByteString)
    ensures !Less(a, a)
  {
    if a != [] {
      LessIrreflexive(a[1..]);
    }
  }

  lemma {:induction false} LessTransitive(a: ByteString, b: ByteString, c: ByteString)
    requires Less(a, b) && Less(b, c)
    ensures Less(a, c)
  {
    if a != [] && a[0] == b[0] && b[0] == c[0] {
      LessTransitive(a[1..], b[1..], c[1..]);
    }
  }

  lemma {:induction false} LessTotal(a: ByteString, b: ByteString)
    ensures Less(a, b) || a == b || Less(b, a)
  {
    if a != [] && b != [] && a[0] == b[0] {
      LessTotal(a[1..], b[1..]);
      assert a == [a[0]] + a[1..] && b == [b[0]] + b[1..];
    }
  }

  lemma LessAsymmetric(a: ByteString, b: ByteString)
    requires Less(a, b)
    ensures !Less(b, a) && a != b
  {
    LessIrreflexive(a);
    if Less(b, a) {
      LessTransitive(a, b, a);
    }
  }

  /** A proper prefix comes first. */
  lemma {:induction false} PrefixLess(a: ByteString, rest: ByteString)
    requires rest != []
    ensures Less(a, a + rest)
  {
    if a != [] {
      PrefixLess(a[1..], rest);
      assert (a + rest)[1..] == a[1..] + rest;
    }
  }

  predicate Ascending(s: seq<ByteString>) {
    forall i, j :: 0 <= i < j < |s| ==> Less(s[i], s[j])
  }

  /** Comparing neighbours is enough. */
  lemma AscendingExtends(s: seq<ByteString>, x: ByteString)
    requires Ascending(s) && (s == [] || Less(s[|s| - 1], x))
    ensures Ascending(s + [x])
  {
    var t := s + [x];
    forall i, j | 0 <= i < j < |t| ensures Less(t[i], t[j]) {
      if j == |s| && i < |s| - 1 {
        LessTransitive(s[i], s[|s| - 1], x);
      }
    }
  }

  /** An ascending sequence is determined by its elements. */
  lemma {:induction false} AscendingUnique(s: seq<ByteString>, t: seq<ByteString>)
    requires Ascending(s) && Ascending(t) && (forall x :: x in s <==> x in t)
    ensures s == t
  {
    if s == [] {
      if t != [] {
        HasMember(t);
      }
    } else if t == [] {
      HasMember(s);
    } else {
      FirstIsLeast(s, t);
      FirstIsLeast(t, s);
      LessTotal(s[0], t[0]);
      RestSame(s, t);
      AscendingUnique(s[1..], t[1..]);
      assert s == [s[0]] + s[1..] && t == [t[0]] + t[1..];
    }
  }

  lemma HasMember(s: seq<ByteString>)
    requires s != []
    ensures exists x :: x in s
  {
    assert s[0] in s;
  }

  lemma FirstIsLeast(s: seq<ByteString>, t: seq<ByteString>)
    requires Ascending(s) && Ascending(t) && s != [] && t != [] && t[0] in s
    ensures !Less(t[0], s[0])
  {
    var k :| 0 <= k < |s| && s[k] == t[0];
    if k == 0 {
      LessIrreflexive(s[0]);
    } else {
      LessAsymmetric(s[0], s[k]);
    }
  }

  lemma RestSame(s: seq<ByteString>, t: seq<ByteString>)
    requires Ascending(s) && Ascending(t) && s != [] && t != [] && s[0] == t[0]
    requires forall x :: x in s <==> x in t
    ensures Ascending(s[1..]) && Ascending(t[1..])
    ensures forall x :: x in s[1..] <==> x in t[1..]
  {
    forall x ensures x in s[1..] <==> x in s && x != s[0] {
      TailMembers(s, x);
    }
    forall x ensures x in t[1..] <==> x in t && x != t[0] {
      TailMembers(t, x);
    }
  }

  lemma TailMembers(s: seq<ByteString>, x: ByteString)
    requires Ascending(s) && s != []
    ensures x in s[1..] <==> x in s && x != s[0]
  {
    LessIrreflexive(s[0]);
    if x in s && x != s[0] {
      var k :| 0 <= k < |s| && s[k] == x;
      assert s[1..][k - 1] == x;
    }
  }
}
