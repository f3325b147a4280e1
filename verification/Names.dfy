/** Deterministic request names: pkg/resource/name.go. */
module Names {
  import opened Common
  import opened Fnv
  import opened SortedStrings

  type Params = map<Bytes, Bytes>

  /** One of the orders in which Go may range over the parameter map. */
  ghost predicate Enumerates(order: seq<Bytes>, params: Params) {
    NoDuplicates(order) && forall k :: k in order <==> k in params
  }

  /** The bytes fed to the hasher after the base: each key and its value. */
  function Stream(keys: seq<Bytes>, params: Params): Bytes
    requires forall k | k in keys :: k in params
  {
    if keys == [] then [] else keys[0] + params[keys[0]] + Stream(keys[1..], params)
  }

  function Digest(base: Bytes, params: Params, order: seq<Bytes>): word
    requires Enumerates(order, params)
  {
    Hash(OFFSET_BASIS, base + Stream(Sort(order), params))
  }

  function HexDigit(d: int): char
    requires 0 <= d < 16
  {
    if d < 10 then '0' + d as char else 'a' + (d - 10) as char
  }

  function HexByte(b: byte): (s: string)
    ensures |s| == 2
  {
    [HexDigit(b / 16), HexDigit(b % 16)]
  }

  /** The low `n` bytes of `h`, most significant first, printed with `%x`. */
  function Hex(h: nat, n: nat): (s: string)
    ensures |s| == 2 * n
  {
    if n == 0 then ""
    else Hex(h / 256, n - 1) + HexByte(h % 256)
  }

  function Name(prefix: string, base: Bytes, params: Params, order: seq<Bytes>): (name: string)
    requires Enumerates(order, params)
  {
    prefix + "-" + Hex(Digest(base, params, order), 16)
  }

  /** The hasher's running state, updated by each `Write`. */
  class NameHasher {
    var state: word

    constructor ()
      ensures state == OFFSET_BASIS
    {
      state := OFFSET_BASIS;
    }

    method Write(chunk: Bytes)
      modifies this
      ensures state == Hash(old(state), chunk)
    {
      assert chunk[..0] == [];
      for i := 0 to |chunk|
        invariant state == Hash(old(state), chunk[..i])
      {
        state := Mix(state, chunk[i]);
        HashOfConcat(old(state), chunk[..i], [chunk[i]]);
        assert chunk[..i + 1] == chunk[..i] + [chunk[i]];
      }
      assert chunk[..|chunk|] == chunk;
    }
  }

  method GenerateDeterministicName(prefix: string, base: Bytes, params: Params, order: seq<Bytes>)
    returns (name: string)
    requires Enumerates(order, params)
    ensures name == Name(prefix, base, params, order)
  {
    var paramKeys: seq<Bytes> := [];
    for i := 0 to |order|
      invariant paramKeys == order[..i]
    {
      paramKeys := paramKeys + [order[i]];
    }
    assert paramKeys == order;
    var hasher := new NameHasher();
    hasher.Write(base);
    paramKeys := Sort(paramKeys);
    assert base + Stream(paramKeys[..0], params) == base;
    for i := 0 to |paramKeys|
      invariant hasher.state == Hash(OFFSET_BASIS, base + Stream(paramKeys[..i], params))
    {
      var key := paramKeys[i];
      hasher.Write(key);
      hasher.Write(params[key]);
      HashOfNextParam(base, paramKeys, i, params);
    }
    assert paramKeys[..|paramKeys|] == paramKeys;
    name := prefix + "-" + Hex(hasher.state, 16);
  }

  lemma {:induction false} StreamSplits(a: seq<Bytes>, b: seq<Bytes>, params: Params)
    requires forall k | k in a + b :: k in params
    ensures forall k | k in a :: k in params
    ensures forall k | k in b :: k in params
    ensures Stream(a + b, params) == Stream(a, params) + Stream(b, params)
  {
    forall k | k in a || k in b ensures k in params { assert k in a + b; }
    if a == [] {
      assert a + b == b;
    } else {
      assert (a + b)[1..] == a[1..] + b;
      StreamSplits(a[1..], b, params);
    }
  }

  /** Writing the next key and then its value extends the hashed stream by that parameter. */
  lemma HashOfNextParam(base: Bytes, keys: seq<Bytes>, i: nat, params: Params)
    requires i < |keys| && forall k | k in keys :: k in params
    ensures Hash(Hash(Hash(OFFSET_BASIS, base + Stream(keys[..i], params)), keys[i]), params[keys[i]])
            == Hash(OFFSET_BASIS, base + Stream(keys[..i + 1], params))
  {
    var key, value, stream := keys[i], params[keys[i]], Stream(keys[..i], params);
    var whole := base + Stream(keys[..i + 1], params);
    assert whole == (base + stream) + key + value by {
      StreamSnoc(keys, i, params);
      assert base + (stream + (key + value)) == (base + stream) + key + value;
    }
    HashOfChunks(OFFSET_BASIS, base + stream, key, value, whole);
  }

  lemma StreamSnoc(keys: seq<Bytes>, i: nat, params: Params)
    requires i < |keys| && forall k | k in keys :: k in params
    ensures Stream(keys[..i + 1], params) == Stream(keys[..i], params) + (keys[i] + params[keys[i]])
  {
    var key := keys[i];
    assert keys[..i + 1] == keys[..i] + [key];
    StreamSplits(keys[..i], [key], params);
    assert Stream([key], params) == key + params[key] + Stream([], params);
  }

  lemma HexDigitIsInjective(d: int, e: int)
    requires 0 <= d < 16 && 0 <= e < 16 && HexDigit(d) == HexDigit(e)
    ensures d == e
  {
  }

  lemma HexByteIsInjective(b: byte, c: byte)
    requires HexByte(b) == HexByte(c)
    ensures b == c
  {
    assert HexByte(b)[0] == HexByte(c)[0] && HexByte(b)[1] == HexByte(c)[1];
    HexDigitIsInjective(b / 16, c / 16);
    HexDigitIsInjective(b % 16, c % 16);
  }

  lemma {:induction false} HexIsInjective(h: nat, h': nat, n: nat)
    requires h < Pow2(8 * n) && h' < Pow2(8 * n)
    requires Hex(h, n) == Hex(h', n)
    ensures h == h'
    decreases n
  {
    if n != 0 {
      HexEnds(h, h', n);
      ShiftFits(h, n);
      ShiftFits(h', n);
      HexIsInjective(h / 256, h' / 256, n - 1);
    }
  }

  lemma ShiftFits(h: nat, n: nat)
    requires n > 0 && h < Pow2(8 * n)
    ensures h / 256 < Pow2(8 * (n - 1))
  {
    assert Pow2(4) == 16;
    Pow2Doubles(4, 16);
    Pow2Adds(8, 8 * (n - 1));
  }

  lemma HexEnds(h: nat, h': nat, n: nat)
    requires n > 0 && Hex(h, n) == Hex(h', n)
    ensures Hex(h / 256, n - 1) == Hex(h' / 256, n - 1)
    ensures h % 256 == h' % 256
  {
    var s, s' := Hex(h / 256, n - 1), Hex(h' / 256, n - 1);
    var t, t' := HexByte(h % 256), HexByte(h' % 256);
    assert s == (s + t)[..2 * n - 2] && s' == (s' + t')[..2 * n - 2];
    assert t == (s + t)[2 * n - 2..] && t' == (s' + t')[2 * n - 2..];
    HexByteIsInjective(h % 256, h' % 256);
  }

  /** The 32 hex digits determine the digest, so names clash only when digests do. */
  lemma NamesClashIffDigestsDo(prefix: string, base: Bytes, params: Params, order: seq<Bytes>,
                               base': Bytes, params': Params, order': seq<Bytes>)
    requires Enumerates(order, params) && Enumerates(order', params')
    ensures Name(prefix, base, params, order) == Name(prefix, base', params', order')
            <==> Digest(base, params, order) == Digest(base', params', order')
  {
    var h, h' := Digest(base, params, order), Digest(base', params', order');
    var n, n' := Name(prefix, base, params, order), Name(prefix, base', params', order');
    assert n[|prefix| + 1..] == Hex(h, 16) && n'[|prefix| + 1..] == Hex(h', 16);
    if n == n' {
      ModulusIsPow2();
      HexIsInjective(h, h', 16);
    }
  }

  /** Go's map iteration order never shows in a name. */
  lemma NameIgnoresOrder(prefix: string, base: Bytes, params: Params, order: seq<Bytes>, order': seq<Bytes>)
    requires Enumerates(order, params) && Enumerates(order', params)
    ensures Name(prefix, base, params, order) == Name(prefix, base, params, order')
  {
    assert forall y :: y in Sort(order) <==> y in params;
    SortedIsUnique(Sort(order), Sort(order'));
  }

  lemma {:induction false} StreamReadsOnlyItsKeys(keys: seq<Bytes>, params: Params, params': Params)
    requires forall k | k in keys :: k in params && k in params' && params[k] == params'[k]
    ensures Stream(keys, params) == Stream(keys, params')
  {
    if keys != [] {
      StreamReadsOnlyItsKeys(keys[1..], params, params');
    }
  }

  /** The stream cut around one key. */
  lemma StreamAround(keys: seq<Bytes>, p: nat, params: Params)
    requires p < |keys| && forall k | k in keys :: k in params
    ensures forall k | k in keys[..p] :: k in params
    ensures forall k | k in keys[p + 1..] :: k in params
    ensures Stream(keys, params) ==
            (Stream(keys[..p], params) + keys[p]) + (params[keys[p]] + Stream(keys[p + 1..], params))
  {
    var rest := keys[p..];
    assert keys == keys[..p] + rest;
    StreamSplits(keys[..p], rest, params);
    assert rest[0] == keys[p] && rest[1..] == keys[p + 1..];
  }

  /** The parameters with byte `i` of one value replaced. */
  function WithByte(params: Params, key: Bytes, i: nat, b: byte): Params
    requires key in params && i < |params[key]|
  {
    var value: Bytes := params[key][i := b];
    params[key := value]
  }

  /** The stream cut around a key whose value is changed, all else being equal. */
  lemma StreamAroundChange(keys: seq<Bytes>, p: nat, params: Params, params': Params)
    requires NoDuplicates(keys) && p < |keys|
    requires forall k | k in keys :: k in params && k in params' && (k != keys[p] ==> params'[k] == params[k])
    ensures forall k | k in keys[..p] :: k in params
    ensures forall k | k in keys[p + 1..] :: k in params
    ensures var before, after := Stream(keys[..p], params) + keys[p], Stream(keys[p + 1..], params);
            && Stream(keys, params) == before + (params[keys[p]] + after)
            && Stream(keys, params') == before + (params'[keys[p]] + after)
  {
    StreamAround(keys, p, params);
    StreamAround(keys, p, params');
    StreamReadsOnlyItsKeys(keys[..p], params, params');
    StreamReadsOnlyItsKeys(keys[p + 1..], params, params');
  }

  /** Replacing one byte of one value replaces one byte of the stream. */
  lemma StreamWithByte(keys: seq<Bytes>, params: Params, key: Bytes, i: nat, b: byte) returns (q: nat)
    requires NoDuplicates(keys) && key in keys && forall k | k in keys :: k in params
    requires i < |params[key]|
    ensures q < |Stream(keys, params)| && Stream(keys, params)[q] == params[key][i]
    ensures Stream(keys, WithByte(params, key, i, b)) == Stream(keys, params)[q := b]
  {
    var p :| 0 <= p < |keys| && keys[p] == key;
    StreamAroundChange(keys, p, params, WithByte(params, key, i, b));
    var before, after := Stream(keys[..p], params) + key, Stream(keys[p + 1..], params);
    q := |before| + i;
    SpliceByte(before, params[key], after, i, b);
  }

  lemma SpliceByte(before: Bytes, value: Bytes, after: Bytes, i: nat, b: byte)
    requires i < |value|
    ensures before + (value[i := b] + after) == (before + (value + after))[|before| + i := b]
  {
  }

  /** Two requests that differ in a single byte of a single value never share a name. */
  lemma OneByteChangesName(prefix: string, base: Bytes, params: Params, order: seq<Bytes>,
                           key: Bytes, i: nat, b: byte)
    requires Enumerates(order, params)
    requires key in params && i < |params[key]| && params[key][i] != b
    ensures var params' := WithByte(params, key, i, b);
            Enumerates(order, params')
            && Name(prefix, base, params, order) != Name(prefix, base, params', order)
  {
    var keys, params' := Sort(order), WithByte(params, key, i, b);
    SortedHasNoDuplicates(keys);
    var q := StreamWithByte(keys, params, key, i, b);
    var stream := Stream(keys, params);
    SpliceByte(base, stream, [], q, b);
    assert stream + [] == stream && stream[q := b] + [] == stream[q := b];
    OneByteChangesHash(OFFSET_BASIS, base + stream, |base| + q, b);
    NamesClashIffDigestsDo(prefix, base, params, order, base, params', order);
  }

  /**
   Names are only a best effort over all parameter maps: base, keys and values
   are hashed without separators, so requests whose bytes run together to the
   same stream share a name.
   */
  lemma SameBytesSameName(prefix: string, base: Bytes, params: Params, order: seq<Bytes>,
                          base': Bytes, params': Params, order': seq<Bytes>)
    requires Enumerates(order, params) && Enumerates(order', params')
    requires base + Stream(Sort(order), params) == base' + Stream(Sort(order'), params')
    ensures Name(prefix, base, params, order) == Name(prefix, base', params', order')
  {
  }

  lemma Regroup(before: Bytes, a: Bytes, b: Bytes, c: Bytes, after: Bytes)
    ensures (before + (a + b)) + (c + after) == (before + a) + ((b + c) + after)
  {
  }

  lemma StreamWithMovedBytes(keys: seq<Bytes>, params: Params, params': Params, p: nat, a: Bytes, b: Bytes)
    requires NoDuplicates(keys) && p < |keys| && keys[p] == a + b
    requires forall k | k in keys :: k in params
    requires forall k | k in keys[p := a] :: k in params'
    requires forall k | k in keys && k != a + b :: k in params' && params'[k] == params[k]
    requires a in params' && params'[a] == b + params[a + b]
    ensures Stream(keys[p := a], params') == Stream(keys, params)
  {
    var front, back := keys[..p], keys[p + 1..];
    StreamAround(keys, p, params);
    StreamAround(keys[p := a], p, params');
    assert keys[p := a][..p] == front && keys[p := a][p + 1..] == back;
    StreamReadsOnlyItsKeys(front, params, params');
    StreamReadsOnlyItsKeys(back, params, params');
    Regroup(Stream(front, params), a, b, params[a + b], Stream(back, params));
  }

  /**
   In any map, bytes may move from the end of a key to the front of its value:
   the name stays the same if the shorter key sorts into the same place.
   */
  lemma BytesMayMoveFromKeyToValue(prefix: string, base: Bytes, params: Params, order: seq<Bytes>,
                                   params': Params, order': seq<Bytes>, p: nat, a: Bytes, b: Bytes)
    requires Enumerates(order, params) && Enumerates(order', params')
    requires p < |Sort(order)| && Sort(order)[p] == a + b && Sort(order') == Sort(order)[p := a]
    requires a in params' && a + b in params && params'[a] == b + params[a + b]
    requires forall k | k in params && k != a + b :: k in params' && params'[k] == params[k]
    ensures Name(prefix, base, params, order) == Name(prefix, base, params', order')
  {
    SortedHasNoDuplicates(Sort(order));
    StreamWithMovedBytes(Sort(order), params, params', p, a, b);
    SameBytesSameName(prefix, base, params, order, base, params', order');
  }

  // The format of a name, without the functions that print it.

  /** The sixteen digits, as `%x` prints them. */
  lemma HexDigitsInOrder(d: nat)
    requires d < 16
    ensures HexDigit(d) == "0123456789abcdef"[d]
  {
  }

  function DigitValue(c: char): nat {
    if '0' <= c <= '9' then (c - '0') as nat else if 'a' <= c <= 'f' then (c - 'a') as nat + 10 else 0
  }

  /** Reading in base 16, most significant digit first. */
  function FromHex(s: string): nat {
    if s == "" then 0 else 16 * FromHex(s[..|s| - 1]) + DigitValue(s[|s| - 1])
  }

  lemma FromHexOfByte(s: string, b: byte)
    ensures FromHex(s + HexByte(b)) == 256 * FromHex(s) + b
  {
    var digits := HexByte(b);
    assert (s + digits)[..|s + digits| - 1] == s + digits[..1];
    assert (s + digits[..1])[..|s|] == s;
    assert DigitValue(digits[0]) == b / 16 && DigitValue(digits[1]) == b % 16;
  }

  lemma {:induction false} HexReadsBack(h: nat, n: nat)
    requires h < Pow2(8 * n)
    ensures FromHex(Hex(h, n)) == h
    decreases n
  {
    if n != 0 {
      ShiftFits(h, n);
      HexReadsBack(h / 256, n - 1);
      FromHexOfByte(Hex(h / 256, n - 1), h % 256);
    }
  }

  /** A name is the prefix, a dash, and 32 digits that read in base 16 are the digest. */
  lemma NameReadsBack(prefix: string, base: Bytes, params: Params, order: seq<Bytes>)
    requires Enumerates(order, params)
    ensures var name := Name(prefix, base, params, order);
            && |name| == |prefix| + 33 && name[..|prefix|] == prefix && name[|prefix|] == '-'
            && FromHex(name[|prefix| + 1..]) == Digest(base, params, order)
  {
    var name := Name(prefix, base, params, order);
    assert name[|prefix| + 1..] == Hex(Digest(base, params, order), 16);
    ModulusIsPow2();
    HexReadsBack(Digest(base, params, order), 16);
  }

  /** Without parameters the base alone is hashed. */
  lemma DigestOfBase(base: Bytes)
    ensures Digest(base, map[], []) == Hash(OFFSET_BASIS, base)
  {
    assert base + [] == base;
  }

  /** With two parameters: the base, the lesser key and its value, then the greater key and its value. */
  lemma DigestOfTwo(base: Bytes, k: Bytes, v: Bytes, k': Bytes, v': Bytes, order: seq<Bytes>)
    requires Before(k, k')
    requires Enumerates(order, map[k := v, k' := v'])
    ensures Digest(base, map[k := v, k' := v'], order) == Hash(OFFSET_BASIS, base + k + v + k' + v')
  {
    var params: Params := map[k := v, k' := v'];
    BeforeIsIrreflexive(k);
    assert Sort(order) == [k, k'] by {
      forall y ensures y in Sort(order) <==> y in [k, k'] {
        assert y in order <==> y in params;
      }
      SortedIsUnique(Sort(order), [k, k']);
    }
    StreamOfTwo(k, k', params);
    assert base + (k + v + (k' + v')) == base + k + v + k' + v';
  }

  lemma StreamOfTwo(k: Bytes, k': Bytes, params: Params)
    requires k in params && k' in params
    ensures Stream([k, k'], params) == k + params[k] + (k' + params[k'])
  {
    assert [k, k'][1..] == [k'] && [k'][1..] == [];
    assert Stream([k'], params) == k' + params[k'];
  }
}
