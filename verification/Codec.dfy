/** Store keys and task ids: itob/btoi, base64url, assembleTaskId/splitTaskId. */
module Codec {
  import opened Basics

  // ---- base64url without padding (RFC 4648, section 5) ----

  type Sextet = v: int | 0 <= v < 64

  function EncodeSextet(v: Sextet): char {
    if v < 26 then (v + 'A' as int) as char
    else if v < 52 then (v - 26 + 'a' as int) as char
    else if v < 62 then (v - 52 + '0' as int) as char
    else if v == 62 then '-' else '_'
  }

  function DecodeSextet(c: char): Option<Sextet> {
    if 'A' <= c <= 'Z' then Some(c as int - 'A' as int)
    else if 'a' <= c <= 'z' then Some(c as int - 'a' as int + 26)
    else if '0' <= c <= '9' then Some(c as int - '0' as int + 52)
    else if c == '-' then Some(62)
    else if c == '_' then Some(63)
    else None
  }

  function Base64Encode(b: seq<Byte>): string {
    if |b| == 0 then ""
    else if |b| == 1 then [EncodeSextet(b[0] / 4), EncodeSextet(b[0] % 4 * 16)]
    else if |b| == 2 then
      [EncodeSextet(b[0] / 4), EncodeSextet(b[0] % 4 * 16 + b[1] / 16), EncodeSextet(b[1] % 16 * 4)]
    else
      [EncodeSextet(b[0] / 4), EncodeSextet(b[0] % 4 * 16 + b[1] / 16),
       EncodeSextet(b[1] % 16 * 4 + b[2] / 64), EncodeSextet(b[2] % 64)] + Base64Encode(b[3..])
  }

  function Base64Decode(s: string): Option<seq<Byte>> {
    if |s| == 0 then Some([])
    else if |s| == 1 then None
    else
      var v0, v1 := DecodeSextet(s[0]), DecodeSextet(s[1]);
      if v0.None? || v1.None? then None
      else
        var b0: Byte := v0.value * 4 + v1.value / 16;
        if |s| == 2 then Some([b0])
        else
          var v2 := DecodeSextet(s[2]);
          if v2.None? then None
          else
            var b1: Byte := v1.value % 16 * 16 + v2.value / 4;
            if |s| == 3 then Some([b0, b1])
            else
              var v3 := DecodeSextet(s[3]);
              var rest := Base64Decode(s[4..]);
              if v3.None? || rest.None? then None
              else Some([b0, b1, v2.value % 4 * 64 + v3.value] + rest.value)
  }

  lemma SextetRoundTrip(v: Sextet)
    ensures DecodeSextet(EncodeSextet(v)) == Some(v)
  {}

  /** The 64 characters of the alphabet decode, each to the value it encodes, and no others. */
  lemma SextetExact(c: char, v: Sextet)
    ensures DecodeSextet(c) == Some(v) <==> EncodeSextet(v) == c
    ensures DecodeSextet(c).Some? <==>
            'A' <= c <= 'Z' || 'a' <= c <= 'z' || '0' <= c <= '9' || c == '-' || c == '_'
  {}

  /** A text decodes exactly if it has only characters of the alphabet and a length that some bytes encode to. */
  lemma {:induction false} DecodesExact(s: string)
    ensures Base64Decode(s).Some? <==> |s| % 4 != 1 && forall i :: 0 <= i < |s| ==> DecodeSextet(s[i]).Some?
  {
    if |s| >= 4 {
      DecodesExact(s[4..]);
      assert forall i :: 4 <= i < |s| ==> s[i] == s[4..][i - 4];
      assert forall i :: 0 <= i < |s[4..]| ==> s[4..][i] == s[i + 4];
    }
  }

  lemma GroupRoundTrip(b0: Byte, b1: Byte, b2: Byte)
    ensures var v1, v2, v3 := b0 % 4 * 16 + b1 / 16, b1 % 16 * 4 + b2 / 64, b2 % 64;
            b0 / 4 * 4 + v1 / 16 == b0 && v1 % 16 * 16 + v2 / 4 == b1 && v2 % 4 * 64 + v3 == b2
  {}

  /** Decoding inverts encoding on byte strings of every length. */
  lemma {:induction false} Base64RoundTrip(b: seq<Byte>)
    ensures Base64Decode(Base64Encode(b)) == Some(b)
  {
    if |b| >= 3 {
      Base64RoundTrip(b[3..]);
      DecodeGroup(b[0], b[1], b[2], Base64Encode(b[3..]));
      assert b == [b[0], b[1], b[2]] + b[3..];
    } else if |b| == 2 {
      ShortRoundTrip(b[0], b[1]);
      assert b == [b[0], b[1]];
    } else if |b| == 1 {
      ShortRoundTrip(b[0], 0);
      assert b == [b[0]];
    }
  }

  /** Decoding takes the four characters of three bytes off the front. */
  lemma DecodeGroup(b0: Byte, b1: Byte, b2: Byte, rest: string)
    requires Base64Decode(rest).Some?
    ensures var s := [EncodeSextet(b0 / 4), EncodeSextet(b0 % 4 * 16 + b1 / 16),
                      EncodeSextet(b1 % 16 * 4 + b2 / 64), EncodeSextet(b2 % 64)] + rest;
            Base64Decode(s) == Some([b0, b1, b2] + Base64Decode(rest).value)
  {
    var s := [EncodeSextet(b0 / 4), EncodeSextet(b0 % 4 * 16 + b1 / 16),
              EncodeSextet(b1 % 16 * 4 + b2 / 64), EncodeSextet(b2 % 64)] + rest;
    SextetRoundTrip(b0 / 4);
    SextetRoundTrip(b0 % 4 * 16 + b1 / 16);
    SextetRoundTrip(b1 % 16 * 4 + b2 / 64);
    SextetRoundTrip(b2 % 64);
    GroupRoundTrip(b0, b1, b2);
    assert s[4..] == rest;
  }

  lemma ShortRoundTrip(b0: Byte, b1: Byte)
    ensures Base64Decode(Base64Encode([b0])) == Some([b0])
    ensures Base64Decode(Base64Encode([b0, b1])) == Some([b0, b1])
  {
    SextetRoundTrip(b0 / 4);
    SextetRoundTrip(b0 % 4 * 16);
    SextetRoundTrip(b0 % 4 * 16 + b1 / 16);
    SextetRoundTrip(b1 % 16 * 4);
    GroupRoundTrip(b0, b1, 0);
  }

  lemma {:induction false} Base64Length(b: seq<Byte>)
    ensures |Base64Encode(b)| == (4 * |b| + 2) / 3
  {
    if |b| >= 3 {
      Base64Length(b[3..]);
    }
  }

  // ---- itob / btoi ----

  function BigEndian(v: nat, n: nat): (b: seq<Byte>)
    ensures |b| == n
  {
    if n == 0 then [] else BigEndian(v / 256, n - 1) + [v % 256]
  }

  function FromBigEndian(b: seq<Byte>): nat {
    if b == [] then 0 else FromBigEndian(b[..|b| - 1]) * 256 + b[|b| - 1]
  }

  function Pow256(n: nat): nat {
    if n == 0 then 1 else 256 * Pow256(n - 1)
  }

  lemma {:induction false} BigEndianRoundTrip(v: nat, n: nat)
    requires v < Pow256(n)
    ensures FromBigEndian(BigEndian(v, n)) == v
  {
    if n > 0 {
      BigEndianRoundTrip(v / 256, n - 1);
      assert BigEndian(v, n)[..n - 1] == BigEndian(v / 256, n - 1);
    }
  }

  /** The key text of an offset: eight big-endian bytes at the front of a 64-byte buffer, in base64url. */
  function Itob(v: nat): string
    requires v < UINT64
  {
    Base64Encode(BigEndian(v, 8) + seq(56, _ => 0))
  }

  /** None is the panic on undecodable or too short text. */
  function Btoi(s: string): Option<nat> {
    var b := Base64Decode(s);
    if b.None? || |b.value| < 8 then None else Some(FromBigEndian(b.value[..8]))
  }

  lemma OffsetKeyRoundTrip(v: nat)
    requires v < UINT64
    ensures Btoi(Itob(v)) == Some(v)
    ensures |Itob(v)| == 86
  {
    var buf: seq<Byte> := BigEndian(v, 8) + seq(56, _ => 0);
    Base64RoundTrip(buf);
    Base64Length(buf);
    assert buf[..8] == BigEndian(v, 8);
    assert Pow256(8) == UINT64 by {
      assert Pow256(2) == 0x1_0000;
      assert Pow256(4) == 0x1_0000_0000;
      assert Pow256(6) == 0x1_0000_0000_0000;
    }
    BigEndianRoundTrip(v, 8);
  }

  /** Two offsets never share a chunk key. */
  lemma OffsetKeysDistinct(v: nat, w: nat)
    requires v < UINT64 && w < UINT64
    ensures Itob(v) == Itob(w) <==> v == w
  {
    OffsetKeyRoundTrip(v);
    OffsetKeyRoundTrip(w);
  }

  /** The most significant byte comes first. */
  lemma ByteOrder()
    ensures BigEndian(0x0102, 8) == [0, 0, 0, 0, 0, 0, 1, 2]
  {
    assert BigEndian(0x0102, 8) == BigEndian(1, 7) + [2];
    assert BigEndian(1, 7) == BigEndian(0, 6) + [1];
    assert BigEndian(0, 6) == BigEndian(0, 3) + [0, 0, 0];
  }

  lemma FirstGroup(b0: Byte, b1: Byte, b2: Byte, rest: seq<Byte>)
    ensures Base64Encode([b0, b1, b2] + rest) == Base64Encode([b0, b1, b2]) + Base64Encode(rest)
  {
    var all := [b0, b1, b2] + rest;
    assert all[3..] == rest && [b0, b1, b2][3..] == [];
  }

  lemma GroupEncodings()
    ensures Base64Encode([0x66, 0x6f, 0x6f]) == "Zm9v" && Base64Encode([0x62, 0x61, 0x72]) == "YmFy"
  {
    assert [0x66, 0x6f, 0x6f][3..] == [] && [0x62, 0x61, 0x72][3..] == [];
  }

  lemma LongEncoding()
    ensures Base64Encode([0x66, 0x6f, 0x6f, 0x62, 0x61, 0x72]) == "Zm9vYmFy"
  {
    hide Base64Encode;
    assert [0x66, 0x6f, 0x6f, 0x62, 0x61, 0x72] == [0x66, 0x6f, 0x6f] + [0x62, 0x61, 0x72];
    FirstGroup(0x66, 0x6f, 0x6f, [0x62, 0x61, 0x72]);
    GroupEncodings();
    assert "Zm9v" + "YmFy" == "Zm9vYmFy";
  }

  lemma ShortEncodings()
    ensures Base64Encode([0x66, 0x6f]) == "Zm8" && Base64Encode([0x66]) == "Zg"
    ensures Base64Encode([0xfb, 0xff]) == "-_8"
  {}

  /** The alphabet, on vectors of section 10 of RFC 4648 and on its two special characters. */
  lemma KnownEncodings()
    ensures Base64Encode([0x66, 0x6f, 0x6f, 0x62, 0x61, 0x72]) == "Zm9vYmFy"
    ensures Base64Encode([0x66, 0x6f]) == "Zm8" && Base64Encode([0x66]) == "Zg"
    ensures Base64Encode([0xfb, 0xff]) == "-_8"
  {
    hide Base64Encode;
    LongEncoding();
    ShortEncodings();
  }

  // ---- task ids ----

  const SYNC := "sync"
  const BROADCAST := "broadcast"
  const BROADCAST_META := "broadcast_meta"
  const SYNC_MANIFEST := "sync_manifest"

  /** strings.Contains */
  ghost predicate Contains(s: string, t: string) {
    exists before: string, after: string :: s == before + t + after
  }

  /** The type check of postTask: any substring of the four names run together, even the empty one. */
  ghost predicate AcceptedType(t: string) {
    Contains(SYNC + BROADCAST + BROADCAST_META + SYNC_MANIFEST, t)
  }

  lemma InMiddle(a: string, b: string, c: string)
    ensures Contains(a + b + c, b)
  {}

  /** The four task types, as the tasks are named in requests and in the pool. */
  lemma NamesAccepted()
    ensures AcceptedType("sync") && AcceptedType("broadcast") && AcceptedType("broadcast_meta")
    ensures AcceptedType("sync_manifest")
  {
    InMiddle("", SYNC, BROADCAST + BROADCAST_META + SYNC_MANIFEST);
    InMiddle(SYNC, BROADCAST, BROADCAST_META + SYNC_MANIFEST);
    InMiddle(SYNC + BROADCAST, BROADCAST_META, SYNC_MANIFEST);
    InMiddle(SYNC + BROADCAST + BROADCAST_META, SYNC_MANIFEST, "");
    NamesJoined(SYNC, BROADCAST, BROADCAST_META, SYNC_MANIFEST);
  }

  lemma NamesJoined(a: string, b: string, c: string, d: string)
    ensures a + b + c + d == "" + a + (b + c + d) == a + b + (c + d) == a + b + c + d == a + b + c + d + ""
  {}

  function AssembleTaskId(arId: string, taskType: string): string {
    ToLower(taskType) + "-" + arId
  }

  /** Position of the first dash, or the length when there is none. */
  function FirstDash(s: string): (d: nat)
    ensures d <= |s| && '-' !in s[..d]
    ensures d < |s| ==> s[d] == '-'
  {
    if s == "" || s[0] == '-' then 0
    else
      var d := 1 + FirstDash(s[1..]);
      assert s[..d] == [s[0]] + s[1..][..d - 1];
      d
  }

  /** strings.SplitN(taskId, "-", 2); None is "taskId incorrect". */
  function SplitTaskId(id: string): Option<(string, string)> {
    var d := FirstDash(id);
    if d == |id| then None else Some((id[d + 1..], id[..d]))
  }

  lemma {:induction false} FirstDashUnique(s: string, k: nat)
    requires k < |s| && s[k] == '-' && '-' !in s[..k]
    ensures FirstDash(s) == k
  {
    if k > 0 {
      assert s[0] == s[..k][0];
      assert s[..k] == [s[0]] + s[1..][..k - 1];
      FirstDashUnique(s[1..], k - 1);
    }
  }

  /** Splitting recovers the pair exactly for dash-free lower-case types, whatever the id contains. */
  lemma TaskIdRoundTripExact(arId: string, t: string)
    ensures SplitTaskId(AssembleTaskId(arId, t)) == Some((arId, t)) <==> ('-' !in t && ToLower(t) == t)
  {
    var id := AssembleTaskId(arId, t);
    var low := ToLower(t);
    assert id[..|low|] == low;
    assert id[|low| + 1..] == arId;
    if '-' !in t {
      assert '-' !in low;
      FirstDashUnique(id, |low|);
    }
  }

  /** A pooled id is an assembled one, whatever its parts were. */
  predicate IsTaskId(id: string) {
    SplitTaskId(id).Some? && ToLower(SplitTaskId(id).value.1) == SplitTaskId(id).value.1
  }

  /** A dash is never before the first dash. */
  lemma DashBefore(s: string, i: nat)
    requires i < |s| && s[i] == '-'
    ensures FirstDash(s) <= i
  {
    var d := FirstDash(s);
    assert forall j :: 0 <= j < d ==> s[..d][j] == s[j];
  }

  /** Reading a pooled id back and assembling it again gives the same id. */
  lemma AssembledIsTaskId(arId: string, t: string, id: string)
    ensures IsTaskId(AssembleTaskId(arId, t))
    ensures IsTaskId(id) ==> AssembleTaskId(SplitTaskId(id).value.0, SplitTaskId(id).value.1) == id
  {
    var a := AssembleTaskId(arId, t);
    assert a[|t|] == '-';
    var d := FirstDash(a);
    DashBefore(a, |t|);
    forall i | 0 <= i < d ensures LowerChar(a[..d][i]) == a[..d][i] {
      assert a[i] == ToLower(t)[i];
    }
  }

  /** Every type that postTask accepts survives the round trip. */
  lemma AcceptedTypesRoundTrip(arId: string, t: string)
    requires AcceptedType(t)
    ensures SplitTaskId(AssembleTaskId(arId, t)) == Some((arId, t))
  {
    var all := SYNC + BROADCAST + BROADCAST_META + SYNC_MANIFEST;
    assert forall i :: 0 <= i < |all| ==> all[i] == '_' || 'a' <= all[i] <= 'z' by {
      NamesAreLower(SYNC);
      NamesAreLower(BROADCAST);
      NamesAreLower(BROADCAST_META);
      NamesAreLower(SYNC_MANIFEST);
    }
    var before: string, after: string :| all == before + t + after;
    forall k | 0 <= k < |t| ensures t[k] == all[|before| + k] {}
    assert ToLower(t) == t;
    TaskIdRoundTripExact(arId, t);
  }

  lemma NamesAreLower(name: string)
    requires name in {SYNC, BROADCAST, BROADCAST_META, SYNC_MANIFEST}
    ensures forall i :: 0 <= i < |name| ==> name[i] == '_' || 'a' <= name[i] <= 'z'
  {}
}
