/**
 Keys of the etcd store as UTF-8 byte strings: lexicographic order, namespacing, and the range end
 that is meant to select exactly the keys with a given prefix.
 */
module KeyRange {

  newtype byte = x: int | 0 <= x < 256

  type Key = seq<byte>

  /** Bytewise lexicographic order, the order of etcd ranges. */
  predicate Less(a: Key, b: Key) {
    b != [] && (a == [] || a[0] < b[0] || (a[0] == b[0] && Less(a[1..], b[1..])))
  }

  /** Membership in a half-open range. */
  predicate InRange(k: Key, low: Key, high: Key) {
    !Less(k, low) && Less(k, high)
  }

  /** `_prefix_range_end` as a function: the last byte below 0xff is incremented, later bytes stay. */
  function RangeEnd(prefix: Key): Key {
    if prefix == [] then []
    else
      var n := |prefix| - 1;
      if prefix[n] < 255 then prefix[..n] + [prefix[n] + 1] else RangeEnd(prefix[..n]) + [255]
  }

  /** The loop has looked at all bytes from position i on, and they are all 0xff. */
  ghost predicate Scanned(prefix: Key, s: Key, i: nat) {
    && i <= |s| == |prefix|
    && s[..i] == prefix[..i]
    && RangeEnd(prefix) == RangeEnd(prefix[..i]) + s[i..]
  }

  lemma ScanStep(prefix: Key, s: Key, i: nat)
    requires i < |s| && Scanned(prefix, s, i + 1)
    ensures s[i] < 255 ==> s[i := s[i] + 1] == RangeEnd(prefix)
    ensures s[i] == 255 ==> Scanned(prefix, s, i)
  {
    var here := prefix[..i + 1];
    assert here[..i] == prefix[..i] && s[..i + 1][..i] == s[..i];
    assert s[i] == s[..i + 1][i] == here[i];
    if s[i] < 255 {
      assert s[i := s[i] + 1] == prefix[..i] + [s[i] + 1] + s[i + 1..];
    } else {
      assert s[i..] == [255] + s[i + 1..];
    }
  }

  /** The source's loop over a byte array. */
  method PrefixRangeEnd(prefix: Key) returns (end: Key)
    ensures end == RangeEnd(prefix)
  {
    var s := new byte[|prefix|](i requires 0 <= i < |prefix| => prefix[i]);
    assert s[..] == prefix && prefix[..|prefix|] == prefix;
    for i := |prefix| downto 0
      invariant Scanned(prefix, s[..], i)
    {
      ghost var now := s[..];
      ScanStep(prefix, now, i);
      if s[i] < 255 {
        s[i] := s[i] + 1;
        assert s[..] == now[i := now[i] + 1];
        return s[..];
      }
    }
    end := s[..];
  }

  lemma {:induction false} LessIrreflexive(a: Key)
    ensures !Less(a, a)
    decreases |a|
  {
    if a != [] { LessIrreflexive(a[1..]); }
  }

  lemma {:induction false} LessThanExtension(a: Key, b: Key)
    requires b != []
    ensures Less(a, a + b)
    decreases |a|
  {
    if a != [] {
      assert (a + b)[1..] == a[1..] + b;
      LessThanExtension(a[1..], b);
    }
  }

  lemma {:induction false} LessAtEqualLength(a: Key, b: Key, tail: Key)
    requires |a| == |b| && Less(a, b)
    ensures Less(a + tail, b)
    decreases |a|
  {
    assert (a + tail)[1..] == a[1..] + tail;
    if a[0] == b[0] {
      LessAtEqualLength(a[1..], b[1..], tail);
    }
  }

  lemma {:induction false} LessAsymmetric(a: Key, b: Key)
    requires Less(a, b)
    ensures !Less(b, a)
    decreases |a|
  {
    if a != [] && a[0] == b[0] {
      LessAsymmetric(a[1..], b[1..]);
    }
  }

  /** Between q+[c] and q+[c+1] lie exactly the extensions of q+[c]. */
  lemma {:induction false} RangeOfLastByte(q: Key, c: byte, k: Key)
    requires c < 255
    ensures InRange(k, q + [c], q + [c + 1]) <==> q + [c] <= k
    decreases |q|
  {
    if q == [] {
      assert q + [c] == [c] && q + [c + 1] == [c + 1];
      if k != [] {
        assert [c][1..] == [] && [c + 1][1..] == [];
        assert Less(k, [c]) <==> k[0] < c;
        assert Less(k, [c + 1]) <==> k[0] < c + 1;
        assert [c] <= k <==> k[0] == c;
      }
    } else if k != [] {
      assert (q + [c])[1..] == q[1..] + [c] && (q + [c + 1])[1..] == q[1..] + [c + 1];
      RangeOfLastByte(q[1..], c, k[1..]);
      if k[0] == q[0] {
        assert q + [c] == [q[0]] + (q[1..] + [c]);
        assert k == [k[0]] + k[1..];
        assert q[1..] + [c] <= k[1..] <==> q + [c] <= k;
      }
    }
  }

  lemma {:induction false} RangeEndGrows(prefix: Key)
    ensures |RangeEnd(prefix)| == |prefix|
    ensures RangeEnd(prefix) == prefix || Less(prefix, RangeEnd(prefix))
    decreases |prefix|
  {
    if prefix != [] {
      var n := |prefix| - 1;
      var q := prefix[..n];
      assert prefix == q + [prefix[n]];
      if prefix[n] < 255 {
        RangeOfLastByte(q, prefix[n], prefix);
      } else {
        RangeEndGrows(q);
        if RangeEnd(q) != q {
          LessAtEqualLength(q, RangeEnd(q), [255]);
          LessThanTail(prefix, RangeEnd(q), [255]);
        }
      }
    }
  }

  lemma {:induction false} LessThanTail(a: Key, b: Key, tail: Key)
    requires Less(a, b)
    ensures Less(a, b + tail)
    decreases |a|
  {
    assert (b + tail)[1..] == b[1..] + tail;
    if a != [] && a[0] == b[0] {
      LessThanTail(a[1..], b[1..], tail);
    }
  }

  /** The range selects exactly the keys with the prefix. */
  ghost predicate Selects(prefix: Key) {
    forall k: Key :: InRange(k, prefix, RangeEnd(prefix)) <==> prefix <= k
  }

  /**
   For a non-empty prefix the range is exact if and only if the last byte is below 0xff, which UTF-8
   text always satisfies (section 1 of RFC 3629).
   */
  lemma RangeIsExact(prefix: Key)
    requires prefix != []
    ensures Selects(prefix) <==> prefix[|prefix| - 1] < 255
  {
    var n := |prefix| - 1;
    var q := prefix[..n];
    assert prefix == q + [prefix[n]];
    if prefix[n] < 255 {
      forall k: Key ensures InRange(k, prefix, RangeEnd(prefix)) <==> prefix <= k {
        RangeOfLastByte(q, prefix[n], k);
      }
    } else {
      var end := RangeEnd(q);
      RangeEndGrows(q);
      assert RangeEnd(prefix) == end + [255];
      if end == q {
        LessIrreflexive(prefix);
        assert !InRange(prefix, prefix, RangeEnd(prefix)) && prefix <= prefix;
      } else {
        LessAtEqualLength(q, end, [255]);
        LessAsymmetric(prefix, end);
        LessThanExtension(end, [255]);
        assert InRange(end, prefix, RangeEnd(prefix)) && !(prefix <= end);
      }
    }
  }

  predicate HasPrefix(k: Key, p: Key) {
    p <= k
  }

  ghost predicate NoCommonExtension(p: Key, q: Key) {
    forall k: Key :: HasPrefix(k, p) ==> !HasPrefix(k, q)
  }

  lemma PrefixesOfOneKey(p: Key, q: Key, k: Key)
    requires p <= k && q <= k
    ensures p <= q || q <= p
  {
    assert p == k[..|p|] && q == k[..|q|];
  }

  /** Two prefixes select disjoint sets of keys iff neither is a prefix of the other. */
  lemma PrefixesDisjoint(p: Key, q: Key)
    ensures NoCommonExtension(p, q) <==> !(p <= q) && !(q <= p)
  {
    if p <= q {
      assert HasPrefix(q, p) && HasPrefix(q, q);
    }
    if q <= p {
      assert HasPrefix(p, p) && HasPrefix(p, q);
    }
    if !NoCommonExtension(p, q) {
      var k: Key :| HasPrefix(k, p) && HasPrefix(k, q);
      PrefixesOfOneKey(p, q, k);
    }
  }

  // ---------------------------------------------------------------------------------------------
  // Namespacing
  // ---------------------------------------------------------------------------------------------

  const SLASH: Key := [47]

  /** `get_key_with_namespace_and_job_name`. */
  function Namespaced(space: Key, job: Key, key: Key): Key {
    if space + SLASH + job + SLASH <= key then key else space + SLASH + job + key
  }

  /**
   Namespacing twice is namespacing once exactly for keys that start with "/" or already carry the
   namespace; for any other key the second call produces a different key.
   */
  lemma NamespacingIdempotent(space: Key, job: Key, key: Key)
    ensures Namespaced(space, job, Namespaced(space, job, key)) == Namespaced(space, job, key)
      <==> SLASH <= key || space + SLASH + job + SLASH <= key
  {
    var root := space + SLASH + job;
    var once := Namespaced(space, job, key);
    if !(root + SLASH <= key) {
      assert once == root + key;
      assert root + SLASH <= once <==> SLASH <= key by {
        if SLASH <= key {
          assert key == SLASH + key[1..];
          assert once == (root + SLASH) + key[1..];
        }
        if root + SLASH <= once {
          assert once[|root|] == (root + SLASH)[|root|];
        }
      }
      assert |root + once| > |once|;
    }
  }

  /**
   A child key `prefix/name` is namespaced as the child of the namespaced prefix exactly when joining
   does not complete the namespace: the prefix already carries it, or the child does not.
   */
  lemma NamespacedChild(space: Key, job: Key, prefix: Key, name: Key)
    ensures Namespaced(space, job, prefix + SLASH + name) == Namespaced(space, job, prefix) + SLASH + name
      <==> (var root := space + SLASH + job + SLASH; root <= prefix || !(root <= prefix + SLASH + name))
  {
    var root := space + SLASH + job;
    assert root + (prefix + SLASH + name) == root + prefix + SLASH + name;
    if root + SLASH <= prefix {
      assert root + SLASH <= prefix + SLASH + name;
    }
  }
}
