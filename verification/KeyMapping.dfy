/** Configuration keys, their flat file names and their Nacos dataIds (unpadded base64url, section 5 of RFC 4648). */
module KeyMapping {
  import opened Wrappers

  /** A Go string is a sequence of bytes; each is written here as the character with that code. */
  type Byte = n: int | 0 <= n < 256
  type Bytes = seq<Byte>

  predicate IsByteText(s: string) {
    forall i | 0 <= i < |s| :: s[i] as int < 256
  }

  function ToBytes(s: string): (b: Bytes)
    requires IsByteText(s)
    ensures |b| == |s|
  {
    seq(|s|, i requires 0 <= i < |s| => s[i] as int)
  }

  function ToText(b: Bytes): (s: string)
    ensures |s| == |b| && IsByteText(s)
  {
    seq(|b|, i requires 0 <= i < |b| => b[i] as char)
  }

  lemma TextRoundTrip(s: string)
    requires IsByteText(s)
    ensures ToText(ToBytes(s)) == s
  {
  }

  /******* Valid keys *******/

  predicate IsAlphaNumeric(c: char) {
    'a' <= c <= 'z' || 'A' <= c <= 'Z' || '0' <= c <= '9'
  }

  predicate IsKeyCharacter(c: char) {
    IsAlphaNumeric(c) || c == '.' || c == '_' || c == ':' || c == '-'
  }

  /** Where the first segment ends: at the first slash or at the end. */
  function SegmentEnd(s: string): (k: nat)
    ensures k <= |s| && (k < |s| ==> s[k] == '/') && forall i | 0 <= i < k :: s[i] != '/'
  {
    if s == "" || s[0] == '/' then 0 else 1 + SegmentEnd(s[1..])
  }

  predicate ValidSegment(s: string) {
    1 <= |s| <= 32 && IsAlphaNumeric(s[0]) && forall i | 0 <= i < |s| :: IsKeyCharacter(s[i])
  }

  /** Slash-separated segments, each valid. */
  predicate ValidSegments(s: string)
    decreases |s|
  {
    var k := SegmentEnd(s);
    ValidSegment(s[..k]) && (k < |s| ==> ValidSegments(s[k + 1..]))
  }

  predicate ValidKey(s: string) {
    1 <= |s| <= 160 && ValidSegments(s)
  }

  /** The rest of a key after `length` characters of its current segment. */
  ghost predicate ValidRest(s: string, length: nat)
    decreases |s|
  {
    var k := SegmentEnd(s);
    && 1 <= length + k <= 32
    && (length == 0 ==> IsAlphaNumeric(s[0]))
    && (forall i | 0 <= i < k :: IsKeyCharacter(s[i]))
    && (k < |s| ==> ValidRest(s[k + 1..], 0))
  }

  lemma {:induction false} RestIsSegments(s: string)
    ensures ValidRest(s, 0) <==> ValidSegments(s)
    decreases |s|
  {
    var k := SegmentEnd(s);
    if k > 0 {
      assert s[..k][0] == s[0];
      assert (forall i | 0 <= i < k :: IsKeyCharacter(s[..k][i])) <==> forall i | 0 <= i < k :: IsKeyCharacter(s[i]);
    }
    if k < |s| {
      RestIsSegments(s[k + 1..]);
    }
  }

  lemma RestStep(s: string, length: nat)
    requires s != "" && length <= 32
    ensures ValidRest(s, length) <==>
            if s[0] == '/' then length > 0 && ValidRest(s[1..], 0)
            else (if length == 0 then IsAlphaNumeric(s[0]) else IsKeyCharacter(s[0])) && length < 32 && ValidRest(s[1..], length + 1)
  {
    if s[0] != '/' {
      var k := SegmentEnd(s);
      assert forall i | 1 <= i < k :: s[i] == s[1..][i - 1];
      assert forall i | 0 <= i < k - 1 :: s[1..][i] == s[i + 1];
      if k < |s| {
        assert s[1..][k - 1 + 1..] == s[k + 1..];
      }
    }
  }

  ghost predicate RestAt(s: string, index: nat, length: nat)
    requires index <= |s|
  {
    ValidRest(s[index..], length)
  }

  lemma RestAtStep(s: string, index: nat, length: nat)
    requires index < |s| && length <= 32
    ensures RestAt(s, index, length) <==>
            if s[index] == '/' then length > 0 && RestAt(s, index + 1, 0)
            else (if length == 0 then IsAlphaNumeric(s[index]) else IsKeyCharacter(s[index])) && length < 32 && RestAt(s, index + 1, length + 1)
  {
    RestStep(s[index..], length);
    assert s[index..][1..] == s[index + 1..];
  }

  lemma RestAtEnds(s: string, length: nat)
    requires length <= 32
    ensures RestAt(s, |s|, length) <==> length > 0
    ensures RestAt(s, 0, 0) <==> ValidSegments(s)
  {
    assert s[|s|..] == "" && s[0..] == s;
    RestIsSegments(s);
  }

  /** The validity check as it runs: one pass with the length of the current segment. */
  method CheckKey(value: string) returns (valid: bool)
    ensures valid <==> ValidKey(value)
  {
    if |value| == 0 || |value| > 160 {
      return false;
    }
    var segmentLength := 0;
    RestAtEnds(value, 0);
    for index := 0 to |value|
      invariant 0 <= segmentLength <= 32
      invariant RestAt(value, index, segmentLength) <==> ValidSegments(value)
    {
      var character := value[index];
      RestAtStep(value, index, segmentLength);
      if character == '/' {
        if segmentLength == 0 {
          return false;
        }
        segmentLength := 0;
      } else {
        if segmentLength == 0 {
          if !IsAlphaNumeric(character) {
            return false;
          }
        } else if !IsKeyCharacter(character) {
          return false;
        }
        if segmentLength + 1 > 32 {
          return false;
        }
        segmentLength := segmentLength + 1;
      }
    }
    RestAtEnds(value, segmentLength);
    return segmentLength != 0;
  }

  lemma {:induction false} SegmentsAreKeyText(s: string)
    requires ValidSegments(s)
    ensures forall i | 0 <= i < |s| :: IsKeyCharacter(s[i]) || s[i] == '/'
    decreases |s|
  {
    var k := SegmentEnd(s);
    assert forall i | 0 <= i < k :: s[i] == s[..k][i];
    if k < |s| {
      SegmentsAreKeyText(s[k + 1..]);
      assert forall i | k < i < |s| :: s[i] == s[k + 1..][i - k - 1];
    }
  }

  lemma KeyIsByteText(s: string)
    requires ValidKey(s)
    ensures IsByteText(s)
  {
    SegmentsAreKeyText(s);
  }

  /******* Unpadded base64url *******/

  function Symbol(v: int): (c: char)
    requires 0 <= v < 64
    ensures IsAlphaNumeric(c) || c == '-' || c == '_'
  {
    if v < 26 then 'A' + v as char
    else if v < 52 then 'a' + (v - 26) as char
    else if v < 62 then '0' + (v - 52) as char
    else if v == 62 then '-'
    else '_'
  }

  function SymbolValue(c: char): (v: Option<int>)
    ensures v.Some? ==> 0 <= v.value < 64
  {
    if 'A' <= c <= 'Z' then Some((c - 'A') as int)
    else if 'a' <= c <= 'z' then Some((c - 'a') as int + 26)
    else if '0' <= c <= '9' then Some((c - '0') as int + 52)
    else if c == '-' then Some(62)
    else if c == '_' then Some(63)
    else None
  }

  lemma SymbolRoundTrip(v: int)
    requires 0 <= v < 64
    ensures SymbolValue(Symbol(v)) == Some(v)
  {
  }

  predicate Sextets(vs: seq<int>) {
    forall i | 0 <= i < |vs| :: 0 <= vs[i] < 64
  }

  /** Three bytes as four groups of six bits, with a short last group padded by zero bits. */
  function Unpack(b: Bytes): (vs: seq<int>)
    ensures Sextets(vs) && |vs| == (4 * |b| + 2) / 3
  {
    if |b| == 0 then []
    else if |b| == 1 then [b[0] / 4, b[0] % 4 * 16]
    else if |b| == 2 then [b[0] / 4, b[0] % 4 * 16 + b[1] / 16, b[1] % 16 * 4]
    else [b[0] / 4, b[0] % 4 * 16 + b[1] / 16, b[1] % 16 * 4 + b[2] / 64, b[2] % 64] + Unpack(b[3..])
  }

  function Spell(vs: seq<int>): (s: string)
    requires Sextets(vs)
    ensures |s| == |vs|
    ensures forall i | 0 <= i < |s| :: IsAlphaNumeric(s[i]) || s[i] == '-' || s[i] == '_'
  {
    if vs == [] then "" else [Symbol(vs[0])] + Spell(vs[1..])
  }

  function Encode(b: Bytes): string {
    Spell(Unpack(b))
  }

  /** Line breaks are skipped, and the unused low bits of the last symbol are ignored. */
  function Strip(s: string): string {
    if s == "" then "" else (if s[0] == '\r' || s[0] == '\n' then "" else [s[0]]) + Strip(s[1..])
  }

  function Values(s: string): Option<seq<int>> {
    if s == "" then Some([])
    else
      var first, rest := SymbolValue(s[0]), Values(s[1..]);
      if first.Some? && rest.Some? then Some([first.value] + rest.value) else None
  }

  function Pack(vs: seq<int>): Option<Bytes>
    requires Sextets(vs)
  {
    if |vs| == 0 then Some([])
    else if |vs| == 1 then None
    else if |vs| == 2 then Some([vs[0] * 4 + vs[1] / 16])
    else if |vs| == 3 then Some([vs[0] * 4 + vs[1] / 16, vs[1] % 16 * 16 + vs[2] / 4])
    else
      var rest := Pack(vs[4..]);
      if rest.None? then None
      else Some([vs[0] * 4 + vs[1] / 16, vs[1] % 16 * 16 + vs[2] / 4, vs[2] % 4 * 64 + vs[3]] + rest.value)
  }

  lemma {:induction false} ValuesAreSextets(s: string)
    ensures Values(s).Some? ==> Sextets(Values(s).value)
  {
    if s != "" {
      ValuesAreSextets(s[1..]);
    }
  }

  function Decode(s: string): Option<Bytes> {
    ValuesAreSextets(Strip(s));
    var vs := Values(Strip(s));
    if vs.None? then None else Pack(vs.value)
  }

  lemma ByteOfHalves(x: int, y: int, z: int)
    requires 0 <= x < 256 && 0 <= y < 256 && 0 <= z < 256
    ensures x / 4 * 4 + (x % 4 * 16 + y / 16) / 16 == x
    ensures (x % 4 * 16 + y / 16) % 16 * 16 + (y % 16 * 4 + z / 64) / 4 == y
    ensures (y % 16 * 4 + z / 64) % 4 * 64 + z % 64 == z
  {
    assert (x % 4 * 16 + y / 16) / 16 == x % 4 && (x % 4 * 16 + y / 16) % 16 == y / 16;
    assert (y % 16 * 4 + z / 64) / 4 == y % 16 && (y % 16 * 4 + z / 64) % 4 == z / 64;
  }

  lemma PackOne(x: Byte)
    ensures Pack(Unpack([x])) == Some([x])
  {
    var v := x % 4 * 16;
    assert v / 16 == x % 4;
    assert Unpack([x]) == [x / 4, v];
  }

  lemma PackTwo(x: Byte, y: Byte)
    ensures Pack(Unpack([x, y])) == Some([x, y])
  {
    var u, v := x % 4 * 16 + y / 16, y % 16 * 4;
    ByteOfHalves(x, y, 0);
    assert v / 4 == y % 16;
    assert Unpack([x, y]) == [x / 4, u, v];
    assert Pack([x / 4, u, v]) == Some([x / 4 * 4 + u / 16, u % 16 * 16 + v / 4]);
  }

  lemma PackGroup(x: Byte, y: Byte, z: Byte, rest: Bytes)
    requires Pack(Unpack(rest)) == Some(rest)
    ensures Pack(Unpack([x, y, z] + rest)) == Some([x, y, z] + rest)
  {
    var b := [x, y, z] + rest;
    var u, v := x % 4 * 16 + y / 16, y % 16 * 4 + z / 64;
    ByteOfHalves(x, y, z);
    assert b[3..] == rest;
    assert Unpack(b) == [x / 4, u, v, z % 64] + Unpack(rest);
    assert Unpack(b)[4..] == Unpack(rest);
  }

  lemma {:induction false} PackUnpack(b: Bytes)
    ensures Pack(Unpack(b)) == Some(b)
  {
    if |b| == 1 {
      PackOne(b[0]);
      assert b == [b[0]];
    } else if |b| == 2 {
      PackTwo(b[0], b[1]);
      assert b == [b[0], b[1]];
    } else if |b| >= 3 {
      PackUnpack(b[3..]);
      PackGroup(b[0], b[1], b[2], b[3..]);
      assert b == [b[0], b[1], b[2]] + b[3..];
    }
  }

  lemma {:induction false} ValuesOfSpelling(vs: seq<int>)
    requires Sextets(vs)
    ensures Values(Spell(vs)) == Some(vs)
  {
    if vs != [] {
      SymbolRoundTrip(vs[0]);
      ValuesOfSpelling(vs[1..]);
      assert Spell(vs)[1..] == Spell(vs[1..]);
      assert vs == [vs[0]] + vs[1..];
    }
  }

  lemma {:induction false} StripPlain(s: string)
    requires forall i | 0 <= i < |s| :: s[i] != '\r' && s[i] != '\n'
    ensures Strip(s) == s
  {
    if s != "" {
      StripPlain(s[1..]);
      assert s == [s[0]] + s[1..];
    }
  }

  /** Decoding inverts encoding. */
  lemma DecodeEncode(b: Bytes)
    ensures Decode(Encode(b)) == Some(b)
  {
    StripPlain(Encode(b));
    ValuesOfSpelling(Unpack(b));
    PackUnpack(b);
  }

  /******* File names *******/

  const PREFIX := "cfg-v1-"
  const SUFFIX := ".value"

  predicate HasPrefix(s: string, prefix: string) {
    |prefix| <= |s| && s[..|prefix|] == prefix
  }

  predicate HasSuffix(s: string, suffix: string) {
    |suffix| <= |s| && s[|s| - |suffix|..] == suffix
  }

  function TrimPrefix(s: string, prefix: string): string {
    if HasPrefix(s, prefix) then s[|prefix|..] else s
  }

  function TrimSuffix(s: string, suffix: string): string {
    if HasSuffix(s, suffix) then s[..|s| - |suffix|] else s
  }

  function MapKey(key: string): Option<string> {
    if !ValidKey(key) then None
    else
      KeyIsByteText(key);
      var leaf := PREFIX + Encode(ToBytes(key)) + SUFFIX;
      if |leaf| > 227 then None else Some(leaf)
  }

  function UnmapLeaf(leaf: string): Option<string> {
    if !HasPrefix(leaf, PREFIX) || !HasSuffix(leaf, SUFFIX) then None
    else
      var encoded := TrimSuffix(TrimPrefix(leaf, PREFIX), SUFFIX);
      if encoded == "" then None
      else
        match Decode(encoded)
        case None => None
        case Some(bytes) =>
          if Encode(bytes) != encoded then None
          else if ValidKey(ToText(bytes)) then Some(ToText(bytes))
          else None
  }

  /** Every valid key has a file name, of at most 227 bytes. */
  lemma EveryKeyMaps(key: string)
    requires ValidKey(key)
    ensures IsByteText(key) && MapKey(key) == Some(PREFIX + Encode(ToBytes(key)) + SUFFIX)
    ensures |MapKey(key).value| <= 227
  {
    KeyIsByteText(key);
    assert |Encode(ToBytes(key))| == (4 * |key| + 2) / 3 <= 214;
  }

  lemma TrimWrapped(encoded: string)
    ensures var leaf := PREFIX + encoded + SUFFIX;
            && HasPrefix(leaf, PREFIX) && HasSuffix(leaf, SUFFIX)
            && TrimSuffix(TrimPrefix(leaf, PREFIX), SUFFIX) == encoded
  {
    var leaf := PREFIX + encoded + SUFFIX;
    assert leaf[..7] == PREFIX;
    assert leaf[7..] == encoded + SUFFIX;
    assert leaf[|leaf| - 6..] == SUFFIX;
    assert (encoded + SUFFIX)[|encoded|..] == SUFFIX;
    assert (encoded + SUFFIX)[..|encoded|] == encoded;
  }

  /** A leaf with both ends is exactly its trimmed middle between them, unless the ends overlap and nothing is trimmed twice. */
  lemma WrapTrimmed(leaf: string)
    requires HasPrefix(leaf, PREFIX) && HasSuffix(leaf, SUFFIX)
    ensures leaf == PREFIX + TrimSuffix(TrimPrefix(leaf, PREFIX), SUFFIX) + SUFFIX
  {
    var n := |leaf|;
    assert leaf[n - 6] == leaf[n - 6..][0] == SUFFIX[0] == '.';
    assert forall i | 0 <= i < 7 :: leaf[i] == leaf[..7][i] == PREFIX[i] != '.';
    assert n - 6 >= 7;
    var rest := leaf[7..];
    assert rest[|rest| - 6..] == leaf[n - 6..];
    assert leaf == leaf[..7] + rest[..|rest| - 6] + rest[|rest| - 6..];
  }

  /** File names are in bijection with valid keys: a leaf is accepted exactly when it is the name of the key returned. */
  lemma MappingIsBijective(leaf: string, key: string)
    ensures UnmapLeaf(leaf) == Some(key) <==> MapKey(key) == Some(leaf)
  {
    if MapKey(key) == Some(leaf) {
      EveryKeyMaps(key);
      var encoded := Encode(ToBytes(key));
      TrimWrapped(encoded);
      DecodeEncode(ToBytes(key));
      TextRoundTrip(key);
      assert |encoded| > 0;
    }
    if UnmapLeaf(leaf) == Some(key) {
      WrapTrimmed(leaf);
      var encoded := TrimSuffix(TrimPrefix(leaf, PREFIX), SUFFIX);
      var bytes := Decode(encoded).value;
      EveryKeyMaps(key);
      assert ToBytes(ToText(bytes)) == bytes;
    }
  }

  /******* Nacos dataIds *******/

  const DATA_ID_PREFIX := "nekiro.key.v1."

  predicate ValidDataId(s: string) {
    1 <= |s| <= 255 && forall i | 0 <= i < |s| :: IsKeyCharacter(s[i])
  }

  method CheckDataId(s: string) returns (valid: bool)
    ensures valid <==> ValidDataId(s)
  {
    if s == "" || |s| > 255 {
      return false;
    }
    for i := 0 to |s|
      invariant forall k | 0 <= k < i :: IsKeyCharacter(s[k])
    {
      if !IsKeyCharacter(s[i]) {
        return false;
      }
    }
    return true;
  }

  function DataIdForKey(key: string): string
    requires ValidKey(key)
  {
    KeyIsByteText(key);
    if ValidDataId(key) && !HasPrefix(key, DATA_ID_PREFIX) then key
    else DATA_ID_PREFIX + Encode(ToBytes(key))
  }

  lemma PrefixedIsLegal(s: string)
    requires |s| <= 241 && forall i | 0 <= i < |s| :: IsKeyCharacter(s[i])
    ensures ValidDataId(DATA_ID_PREFIX + s)
  {
    assert |DATA_ID_PREFIX| == 14;
    assert forall i | 0 <= i < 14 :: IsKeyCharacter(DATA_ID_PREFIX[i]);
  }

  lemma DataIdIsLegal(key: string)
    requires ValidKey(key)
    ensures ValidDataId(DataIdForKey(key))
  {
    KeyIsByteText(key);
    if !(ValidDataId(key) && !HasPrefix(key, DATA_ID_PREFIX)) {
      PrefixedIsLegal(Encode(ToBytes(key)));
    }
  }

  /** Different keys never share a dataId. */
  lemma DataIdInjective(a: string, b: string)
    requires ValidKey(a) && ValidKey(b) && DataIdForKey(a) == DataIdForKey(b)
    ensures a == b
  {
    KeyIsByteText(a);
    KeyIsByteText(b);
    var ea, eb := Encode(ToBytes(a)), Encode(ToBytes(b));
    assert (DATA_ID_PREFIX + ea)[..14] == DATA_ID_PREFIX && (DATA_ID_PREFIX + eb)[..14] == DATA_ID_PREFIX;
    assert (DATA_ID_PREFIX + ea)[14..] == ea && (DATA_ID_PREFIX + eb)[14..] == eb;
    DecodeEncode(ToBytes(a));
    DecodeEncode(ToBytes(b));
    TextRoundTrip(a);
    TextRoundTrip(b);
  }
}
