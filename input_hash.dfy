/** The input fingerprint: the reward-function inputs with the volatile keys
    removed, rendered by Python's `str()` and hashed with SHA-256. The mapping
    is an insertion-ordered sequence of (key, value) entries, as a Python dict
    iterates; a dict never repeats a key (DistinctKeys). */
module InputHash {
  import opened Values

  type Mapping = seq<(string, Json)>

  /** The keys that never contribute to the fingerprint. */
  const VolatileKeys: seq<string> := ["validator_uid", "nonce", "uid_responsible_for_proof"]

  predicate IsVolatile(key: string) {
    key in VolatileKeys
  }

  predicate DistinctKeys(m: Mapping) {
    forall i, j :: 0 <= i < j < |m| ==> m[i].0 != m[j].0
  }

  /** The dict comprehension over `inputs.items()` that drops volatile keys. */
  function Filter(m: Mapping): (r: Mapping)
    ensures forall e :: e in r <==> e in m && !IsVolatile(e.0)
    ensures |r| <= |m|
  {
    if m == [] then []
    else if IsVolatile(m[0].0) then Filter(m[1..])
    else [m[0]] + Filter(m[1..])
  }

  /** The foreign functions the fingerprint is built from: Python's `str()` of
      a dict, and the lowercase hex SHA-256 digest of a string's UTF-8 bytes. */
  datatype Hashing = Hashing(render: Mapping -> string, sha256Hex: string -> string)

  /** `_hash_inputs`: the digest of `str()` of the filtered mapping. With a
      real SHA-256 it is 64 lowercase hex characters, so never `""`. */
  function HashInputs(h: Hashing, inputs: Mapping): (r: string)
    ensures DigestWellFormed(h) ==> IsHexDigest(r) && r != ""
  {
    h.sha256Hex(h.render(Filter(inputs)))
  }

  predicate IsHexDigest(d: string) {
    |d| == 64 && forall i :: 0 <= i < |d| ==> d[i] in "0123456789abcdef"
  }

  /** What `hexdigest()` always delivers: 64 lowercase hex characters. */
  ghost predicate DigestWellFormed(h: Hashing) {
    forall s :: IsHexDigest(h.sha256Hex(s))
  }

  /** Filtering works entry by entry, so it distributes over concatenation. */
  lemma {:induction false} FilterConcat(a: Mapping, b: Mapping)
    ensures Filter(a + b) == Filter(a) + Filter(b)
  {
    if a == [] {
      assert a + b == b;
    } else {
      assert (a + b)[0] == a[0];
      assert (a + b)[1..] == a[1..] + b;
      FilterConcat(a[1..], b);
    }
  }

  /** Filtering an already filtered mapping changes nothing. */
  lemma {:induction false} FilterIdempotent(m: Mapping)
    ensures Filter(Filter(m)) == Filter(m)
  {
    if m != [] {
      FilterIdempotent(m[1..]);
      if !IsVolatile(m[0].0) {
        var rest := Filter(m[1..]);
        assert ([m[0]] + rest)[0] == m[0];
        assert ([m[0]] + rest)[1..] == rest;
      }
    }
  }

  /** Every entry of the result is an entry of the input, at the position p
      this lemma names. */
  lemma {:induction false} FilterSource(m: Mapping, i: nat) returns (p: nat)
    requires i < |Filter(m)|
    ensures p < |m| && m[p] == Filter(m)[i]
  {
    if IsVolatile(m[0].0) {
      p := FilterSource(m[1..], i);
      p := p + 1;
    } else if i == 0 {
      p := 0;
    } else {
      p := FilterSource(m[1..], i - 1);
      p := p + 1;
    }
  }

  /** The surviving entries keep their relative insertion order: any two
      entries of the result occur in the input in the same order, at the
      positions p < q this lemma names. */
  lemma {:induction false} FilterKeepsOrder(m: Mapping, i: nat, j: nat) returns (p: nat, q: nat)
    requires i < j < |Filter(m)|
    ensures p < q < |m| && m[p] == Filter(m)[i] && m[q] == Filter(m)[j]
  {
    if IsVolatile(m[0].0) {
      p, q := FilterKeepsOrder(m[1..], i, j);
      p, q := p + 1, q + 1;
    } else if i == 0 {
      q := FilterSource(m[1..], j - 1);
      p, q := 0, q + 1;
    } else {
      p, q := FilterKeepsOrder(m[1..], i - 1, j - 1);
      p, q := p + 1, q + 1;
    }
  }

  /** The filtered dict is still a dict: its keys stay distinct. */
  lemma {:induction false} FilterKeepsDistinctKeys(m: Mapping)
    requires DistinctKeys(m)
    ensures DistinctKeys(Filter(m))
  {
    if m != [] {
      assert DistinctKeys(m[1..]) by {
        forall i, j | 0 <= i < j < |m[1..]| ensures m[1..][i].0 != m[1..][j].0 {
          assert m[1..][i] == m[i + 1] && m[1..][j] == m[j + 1];
        }
      }
      FilterKeepsDistinctKeys(m[1..]);
      if !IsVolatile(m[0].0) {
        var rest := Filter(m[1..]);
        forall e | e in rest ensures e.0 != m[0].0 {
          var k :| 0 <= k < |m[1..]| && m[1..][k] == e;
          assert m[k + 1] == e;
        }
        var r := [m[0]] + rest;
        forall i, j | 0 <= i < j < |r| ensures r[i].0 != r[j].0 {
          if i == 0 {
            assert r[j] == rest[j - 1] && rest[j - 1] in rest;
          } else {
            assert r[i] == rest[i - 1] && r[j] == rest[j - 1];
          }
        }
      }
    }
  }

  /** Inserting a volatile entry anywhere leaves the fingerprint unchanged
      (read backwards: so does removing one). */
  lemma HashInputsIgnoresVolatileEntry(h: Hashing, a: Mapping, b: Mapping, key: string, v: Json)
    requires IsVolatile(key)
    ensures HashInputs(h, a + [(key, v)] + b) == HashInputs(h, a + b)
  {
    FilterConcat(a + [(key, v)], b);
    FilterConcat(a, [(key, v)]);
    FilterConcat(a, b);
    assert [(key, v)][1..] == [];
    assert Filter([(key, v)]) == [];
    assert Filter(a + [(key, v)] + b) == Filter(a + b) by {
      assert Filter(a) + [] == Filter(a);
    }
  }

  /** Changing the value stored under a volatile key leaves the fingerprint
      unchanged. */
  lemma HashInputsIgnoresVolatileValue(h: Hashing, m: Mapping, i: nat, v: Json)
    requires i < |m| && IsVolatile(m[i].0)
    ensures HashInputs(h, m[i := (m[i].0, v)]) == HashInputs(h, m)
  {
    var m' := m[i := (m[i].0, v)];
    assert m == m[..i] + [m[i]] + m[i + 1..];
    assert m' == m[..i] + [(m[i].0, v)] + m[i + 1..];
    HashInputsIgnoresVolatileEntry(h, m[..i], m[i + 1..], m[i].0, m[i].1);
    HashInputsIgnoresVolatileEntry(h, m[..i], m[i + 1..], m[i].0, v);
  }

  /** Conversely, every other key matters: a different value under a kept key
      gives a different filtered mapping, hence a different string to hash. */
  lemma FilterSeesKeptValue(m: Mapping, i: nat, v: Json)
    requires i < |m| && !IsVolatile(m[i].0) && v != m[i].1
    ensures Filter(m[i := (m[i].0, v)]) != Filter(m)
  {
    var m' := m[i := (m[i].0, v)];
    assert m == m[..i] + [m[i]] + m[i + 1..];
    assert m' == m[..i] + [(m[i].0, v)] + m[i + 1..];
    FilterConcat(m[..i] + [m[i]], m[i + 1..]);
    FilterConcat(m[..i], [m[i]]);
    FilterConcat(m[..i] + [(m[i].0, v)], m[i + 1..]);
    FilterConcat(m[..i], [(m[i].0, v)]);
    var n := |Filter(m[..i])|;
    assert Filter(m)[n] == m[i];
    assert Filter(m')[n] == (m[i].0, v);
  }

  /** The fingerprint is order-sensitive: swapping two adjacent kept entries
      that differ gives a different filtered mapping. */
  lemma FilterSeesOrder(a: Mapping, x: (string, Json), y: (string, Json), b: Mapping)
    requires !IsVolatile(x.0) && !IsVolatile(y.0) && x != y
    ensures Filter(a + [x, y] + b) != Filter(a + [y, x] + b)
  {
    FilterConcat(a + [x, y], b);
    FilterConcat(a, [x, y]);
    FilterConcat(a + [y, x], b);
    FilterConcat(a, [y, x]);
    var n := |Filter(a)|;
    assert Filter(a + [x, y] + b)[n] == x;
    assert Filter(a + [y, x] + b)[n] == y;
  }

  /** Part of the inputs the repository's own test submits: the validator's
      uid is dropped, the miners' "uid" is kept, and order is preserved. */
  lemma FilterDropsValidatorUid(zeros: Json, blocks: Json)
    ensures Filter([("block_number", blocks), ("validator_uid", zeros), ("uid", zeros)])
         == [("block_number", blocks), ("uid", zeros)]
  {
  }
}
