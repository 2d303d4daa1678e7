/**
 * The text form of Fernet tokens (goperation/manager/utils/fernet.py): tokens
 * travel as base64url text without its padding, which the receiver restores
 * before it decrypts the token and reads the creation time out of its bytes.
 */
module FernetTokens {
  import opened Wrappers
  import opened FernetKeys

  type Byte = b: int | 0 <= b < 256

  const TIMESTAMP_START := 1
  const TIMESTAMP_END := 9

  datatype TokenError = InvalidToken | NoCreationTime

  // ---- base64url, section 5 of RFC 4648 ----

  function Digit(v: int): (c: char)
    requires 0 <= v < 64
    ensures c != '=' && Value(c) == Some(v)
  {
    if v < 26 then 'A' + v as char
    else if v < 52 then 'a' + (v - 26) as char
    else if v < 62 then '0' + (v - 52) as char
    else if v == 62 then '-' else '_'
  }

  function Value(c: char): (v: Option<int>)
    ensures v.Some? ==> 0 <= v.value < 64
  {
    if 'A' <= c <= 'Z' then Some(c as int - 'A' as int)
    else if 'a' <= c <= 'z' then Some(c as int - 'a' as int + 26)
    else if '0' <= c <= '9' then Some(c as int - '0' as int + 52)
    else if c == '-' then Some(62)
    else if c == '_' then Some(63)
    else None
  }

  /** Three bytes as four six-bit digits. */
  function Group(x: Byte, y: Byte, z: Byte): (text: string)
    ensures |text| == 4 && forall k | 0 <= k < 4 :: text[k] != '='
  {
    [Digit(x / 4), Digit(x % 4 * 16 + y / 16), Digit(y % 16 * 4 + z / 64), Digit(z % 64)]
  }

  /** The digits of the encoding, without the padding of section 3.2. */
  function Digits(b: seq<Byte>): (text: string)
    ensures forall k | 0 <= k < |text| :: text[k] != '='
    ensures |text| % 4 == if |b| % 3 == 0 then 0 else |b| % 3 + 1
  {
    hide Group;
    if |b| == 0 then ""
    else if |b| == 1 then Group(b[0], 0, 0)[..2]
    else if |b| == 2 then Group(b[0], b[1], 0)[..3]
    else
      var rest := Digits(b[3..]);
      assert (4 + |rest|) % 4 == |rest| % 4 && |b[3..]| % 3 == |b| % 3;
      Group(b[0], b[1], b[2]) + rest
  }

  function Padding(b: seq<Byte>): string {
    if |b| % 3 == 1 then "==" else if |b| % 3 == 2 then "=" else ""
  }

  /** urlsafe_b64encode */
  function Encode(b: seq<Byte>): string {
    Digits(b) + Padding(b)
  }

  /** urlsafe_b64decode on padded text: groups of four, the last of which may be padded. */
  function Decode(text: string): Option<seq<Byte>> {
    if text == "" then Some([])
    else if |text| < 4 then None
    else
      match (Value(text[0]), Value(text[1]), Value(text[2]), Value(text[3]))
      case (Some(v0), Some(v1), Some(v2), Some(v3)) =>
        (match Decode(text[4..])
         case None => None
         case Some(rest) => Some([v0 * 4 + v1 / 16, v1 % 16 * 16 + v2 / 4, v2 % 4 * 64 + v3] + rest))
      case (Some(v0), Some(v1), Some(v2), None) =>
        if text[3..] == "=" then Some([v0 * 4 + v1 / 16, v1 % 16 * 16 + v2 / 4]) else None
      case (Some(v0), Some(v1), None, None) =>
        if text[2..] == "==" then Some([v0 * 4 + v1 / 16]) else None
      case _ => None
  }

  /** Groups of the test vectors of section 10, and one with the two digits that the url-safe alphabet has of its own. */
  lemma TestVectors()
    ensures Group(102, 111, 111) == "Zm9v" && Group(98, 97, 114) == "YmFy" && Group(251, 255, 191) == "-_-_"
    ensures Group(0, 16, 131) == "ABCD"
  {
  }

  lemma PaddedVectors()
    ensures Encode([102]) == "Zg==" && Encode([102, 111]) == "Zm8=" && Encode([102, 111, 111]) == "Zm9v"
  {
    TestVectors();
    assert Group(102, 0, 0)[..2] == "Zg" && Group(102, 111, 0)[..3] == "Zm8";
    hide Group;
    assert [102, 111, 111][3..] == [];
  }

  /** Groups of four characters of the alphabet, of which at most the last two are padding. */
  ghost predicate WellFormed(text: string, pad: nat) {
    && pad <= 2 && pad <= |text| && |text| % 4 == 0
    && (forall k :: 0 <= k < |text| - pad ==> Value(text[k]).Some?)
    && (forall k :: |text| - pad <= k < |text| ==> text[k] == '=')
  }

  /** Exactly such text is decoded. */
  lemma {:induction false} DecodesWellFormed(text: string)
    ensures Decode(text).Some? <==> exists pad: nat :: WellFormed(text, pad)
    decreases |text|
  {
    hide Value;
    NotADigit();
    if text == "" {
      assert WellFormed(text, 0);
    } else if |text| >= 4 && Value(text[3]).Some? {
      DecodesWellFormed(text[4..]);
      WellFormedTail(text);
    } else if |text| == 4 {
      assert text[3..] == [text[3]] && text[2..] == [text[2], text[3]];
      LastGroup(text);
    } else {
      LongIsRefused(text);
    }
  }

  lemma WellFormedTail(text: string)
    requires |text| >= 4 && Value(text[3]).Some? && Value('=').None?
    ensures (exists pad: nat :: WellFormed(text, pad)) <==>
              && Value(text[0]).Some? && Value(text[1]).Some? && Value(text[2]).Some?
              && exists pad: nat :: WellFormed(text[4..], pad)
  {
    hide Value;
    var tail := text[4..];
    if pad: nat :| WellFormed(text, pad) {
      assert |text| - pad > 3;
      assert pad <= |tail|;
      assert forall k :: 0 <= k < |tail| ==> tail[k] == text[k + 4];
      assert WellFormed(tail, pad);
    }
    if pad: nat :| WellFormed(tail, pad) {
      if Value(text[0]).Some? && Value(text[1]).Some? && Value(text[2]).Some? {
        forall k | 0 <= k < |text| - pad ensures Value(text[k]).Some? {
          assert k >= 4 ==> tail[k - 4] == text[k];
        }
        forall k | |text| - pad <= k < |text| ensures text[k] == '=' {
          assert tail[k - 4] == text[k];
        }
        assert WellFormed(text, pad);
      }
    }
  }

  lemma LastGroup(text: string)
    requires |text| == 4 && Value(text[3]).None? && Value('=').None?
    ensures (exists pad: nat :: WellFormed(text, pad)) <==>
              && Value(text[0]).Some? && Value(text[1]).Some? && text[3] == '='
              && (Value(text[2]).Some? || text[2] == '=')
  {
    hide Value;
    if Value(text[0]).Some? && Value(text[1]).Some? && text[3] == '=' {
      if Value(text[2]).Some? {
        assert WellFormed(text, 1);
      } else if text[2] == '=' {
        assert WellFormed(text, 2);
      }
    }
  }

  lemma LongIsRefused(text: string)
    requires text != "" && |text| != 4 && (|text| >= 4 ==> Value(text[3]).None?)
    ensures forall pad: nat :: !WellFormed(text, pad)
  {
    hide Value;
  }

  lemma GroupValues(x: Byte, y: Byte, z: Byte)
    ensures Value(Group(x, y, z)[0]) == Some(x / 4)
    ensures Value(Group(x, y, z)[1]) == Some(x % 4 * 16 + y / 16)
    ensures Value(Group(x, y, z)[2]) == Some(y % 16 * 4 + z / 64)
    ensures Value(Group(x, y, z)[3]) == Some(z % 64)
    ensures x / 4 * 4 + (x % 4 * 16 + y / 16) / 16 == x
    ensures (x % 4 * 16 + y / 16) % 16 * 16 + (y % 16 * 4 + z / 64) / 4 == y
    ensures (y % 16 * 4 + z / 64) % 4 * 64 + z % 64 == z
  {
  }

  /** The last group, which may be padded. */
  lemma DecodeShort(b: seq<Byte>)
    requires |b| < 3
    ensures Decode(Encode(b)) == Some(b)
  {
    hide Value, Group;
    var text := Encode(b);
    NotADigit();
    if |b| == 0 {
      assert b == [];
    } else if |b| == 1 {
      GroupValues(b[0], 0, 0);
      assert text == [Group(b[0], 0, 0)[0], Group(b[0], 0, 0)[1], '=', '='];
      assert text[2..] == "==" && b == [b[0]];
    } else {
      GroupValues(b[0], b[1], 0);
      assert text == [Group(b[0], b[1], 0)[0], Group(b[0], b[1], 0)[1], Group(b[0], b[1], 0)[2], '='];
      assert text[3..] == "=" && b == [b[0], b[1]];
    }
  }

  /** Four digits and what follows them. */
  lemma DecodeFour(text: string, v0: int, v1: int, v2: int, v3: int, rest: seq<Byte>)
    requires |text| >= 4 && Value(text[0]) == Some(v0) && Value(text[1]) == Some(v1)
    requires Value(text[2]) == Some(v2) && Value(text[3]) == Some(v3) && Decode(text[4..]) == Some(rest)
    ensures Decode(text) == Some([v0 * 4 + v1 / 16, v1 % 16 * 16 + v2 / 4, v2 % 4 * 64 + v3] + rest)
  {
    hide Value;
  }

  lemma {:induction false} DecodeEncode(b: seq<Byte>)
    ensures Decode(Encode(b)) == Some(b)
  {
    hide Value, Group, Encode, Decode;
    if |b| < 3 {
      DecodeShort(b);
    } else {
      var x, y, z := b[0], b[1], b[2];
      GroupValues(x, y, z);
      DecodeEncode(b[3..]);
      EncodeGroup(b);
      var text, group := Encode(b), Group(x, y, z);
      assert text[4..] == Encode(b[3..]);
      assert text[0] == group[0] && text[1] == group[1] && text[2] == group[2] && text[3] == group[3];
      DecodeFour(text, x / 4, x % 4 * 16 + y / 16, y % 16 * 4 + z / 64, z % 64, b[3..]);
      assert b == [x, y, z] + b[3..];
    }
  }

  lemma EncodeGroup(b: seq<Byte>)
    requires |b| >= 3
    ensures Encode(b) == Group(b[0], b[1], b[2]) + Encode(b[3..])
  {
    hide Group;
    assert |b| % 3 == |b[3..]| % 3;
  }

  lemma NotADigit()
    ensures Value('=') == None
  {
  }

  /** rstrip(b'=') */
  function StripPadding(text: string): (stripped: string)
    ensures stripped <= text
    ensures stripped != "" ==> stripped[|stripped| - 1] != '='
    ensures forall k | |stripped| <= k < |text| :: text[k] == '='
  {
    if text != "" && text[|text| - 1] == '=' then StripPadding(text[..|text| - 1]) else text
  }

  /** restore_padding */
  function RestorePadding(token: string): string {
    var rest := |token| % 4;
    if rest == 0 then token else token + Repeat('=', 4 - rest)
  }

  function Repeat(c: char, n: nat): string {
    if n == 0 then "" else [c] + Repeat(c, n - 1)
  }

  /** Stripping stops at the last character that is not padding. */
  lemma StripAt(text: string, k: nat)
    requires k <= |text|
    requires k > 0 ==> text[k - 1] != '='
    requires forall i | k <= i < |text| :: text[i] == '='
    ensures StripPadding(text) == text[..k]
  {
  }

  /** Only the padding is stripped, and exactly the padding is restored. */
  lemma PaddingRoundTrip(b: seq<Byte>)
    ensures StripPadding(Encode(b)) == Digits(b)
    ensures RestorePadding(StripPadding(Encode(b))) == Encode(b)
  {
    hide Digits, StripPadding;
    var text, digits := Encode(b), Digits(b);
    forall k | |digits| <= k < |text| ensures text[k] == '=' {
      assert text[k] == Padding(b)[k - |digits|];
    }
    StripAt(text, |digits|);
    assert text[..|digits|] == digits;
    assert Repeat('=', 1) == "=" && Repeat('=', 2) == "==";
  }

  // ---- the timestamp of the Fernet specification, Token Format ----

  function BigEndian(b: seq<Byte>): (n: nat) {
    if b == [] then 0 else BigEndian(b[..|b| - 1]) * 256 + b[|b| - 1]
  }

  /** The width-byte big-endian form of n; higher bytes are cut off. */
  function ToBytes(n: nat, width: nat): (b: seq<Byte>)
    ensures |b| == width
  {
    if width == 0 then [] else ToBytes(n / 256, width - 1) + [n % 256]
  }

  function Power256(width: nat): nat {
    if width == 0 then 1 else 256 * Power256(width - 1)
  }

  lemma {:induction false} BigEndianToBytes(n: nat, width: nat)
    requires n < Power256(width)
    ensures BigEndian(ToBytes(n, width)) == n
  {
    if width > 0 {
      assert n / 256 < Power256(width - 1);
      BigEndianToBytes(n / 256, width - 1);
      var b := ToBytes(n, width);
      assert b[..width - 1] == ToBytes(n / 256, width - 1);
    }
  }

  /** creation_time: struct.unpack(">Q", ...) wants exactly eight bytes. */
  function CreationTime(text: string): Result<nat, TokenError> {
    match Decode(text)
    case None => Err(InvalidToken)
    case Some(b) =>
      if |b| < TIMESTAMP_END then Err(NoCreationTime)
      else Ok(BigEndian(b[TIMESTAMP_START..TIMESTAMP_END]))
  }

  /** The creation time survives the trip through stripped text, for tokens that are long enough and no others. */
  lemma CreationTimeOfToken(token: seq<Byte>)
    ensures CreationTime(RestorePadding(StripPadding(Encode(token))))
         == if |token| < 9 then Err(NoCreationTime) else Ok(BigEndian(token[1..9]))
  {
    PaddingRoundTrip(token);
    DecodeEncode(token);
  }

  // ---- pack and unpack over an abstract cipher ----

  /** seal(key, time, payload) mints token bytes; open(key, token) gives the payload back or fails. */
  datatype Cipher = Cipher(
    seal: (Key, nat, seq<Byte>) -> seq<Byte>,
    open: (Key, seq<Byte>) -> Option<seq<Byte>>)

  /** A token opens under its own key and no other, and carries its time in bytes 1 to 8. */
  ghost predicate Authentic(cipher: Cipher) {
    && (forall key, other, time, payload ::
          cipher.open(other, cipher.seal(key, time, payload)) == if other == key then Some(payload) else None)
    && (forall key, time, payload ::
          && |cipher.seal(key, time, payload)| >= TIMESTAMP_END
          && cipher.seal(key, time, payload)[TIMESTAMP_START..TIMESTAMP_END] == ToBytes(time, 8))
  }

  /** MultiFernet mints with the first key it was given ... */
  function Pack(cipher: Cipher, primary: Key, time: nat, payload: seq<Byte>): string {
    StripPadding(Encode(cipher.seal(primary, time, payload)))
  }

  /** ... and tries every key when it decrypts. */
  function Decrypt(cipher: Cipher, keys: seq<Key>, token: seq<Byte>): Option<seq<Byte>> {
    if keys == [] then None
    else
      match cipher.open(keys[0], token)
      case Some(payload) => Some(payload)
      case None => Decrypt(cipher, keys[1..], token)
  }

  function Unpack(cipher: Cipher, keys: seq<Key>, token: string): Result<(seq<Byte>, nat), TokenError> {
    var text := RestorePadding(token);
    match Decode(text)
    case None => Err(InvalidToken)
    case Some(b) =>
      match Decrypt(cipher, keys, b)
      case None => Err(InvalidToken)
      case Some(payload) =>
        match CreationTime(text)
        case Err(e) => Err(e)
        case Ok(ctime) => Ok((payload, ctime))
  }

  lemma {:induction false} DecryptSealed(cipher: Cipher, keys: seq<Key>, key: Key, time: nat, payload: seq<Byte>)
    requires Authentic(cipher)
    ensures Decrypt(cipher, keys, cipher.seal(key, time, payload)) == if key in keys then Some(payload) else None
  {
    if keys != [] {
      DecryptSealed(cipher, keys[1..], key, time, payload);
      assert key in keys <==> key == keys[0] || key in keys[1..];
      assert cipher.open(keys[0], cipher.seal(key, time, payload)) == if keys[0] == key then Some(payload) else None;
    }
  }

  /** The key at k is the first that opens the token, and gives the payload. */
  ghost predicate OpensFirst(cipher: Cipher, keys: seq<Key>, token: seq<Byte>, k: nat, payload: seq<Byte>) {
    && k < |keys| && cipher.open(keys[k], token) == Some(payload)
    && forall j :: 0 <= j < k ==> cipher.open(keys[j], token) == None
  }

  lemma {:induction false} DecryptMeaning(cipher: Cipher, keys: seq<Key>, token: seq<Byte>, payload: seq<Byte>)
    ensures Decrypt(cipher, keys, token) == Some(payload) <==> exists k: nat :: OpensFirst(cipher, keys, token, k, payload)
  {
    if keys != [] {
      if cipher.open(keys[0], token).Some? {
        if cipher.open(keys[0], token) == Some(payload) {
          assert OpensFirst(cipher, keys, token, 0, payload);
        }
      } else {
        DecryptMeaning(cipher, keys[1..], token, payload);
        if k: nat :| OpensFirst(cipher, keys[1..], token, k, payload) {
          assert OpensFirst(cipher, keys, token, k + 1, payload);
        }
        if k: nat :| OpensFirst(cipher, keys, token, k, payload) {
          assert forall j :: 0 <= j < k - 1 ==> keys[1..][j] == keys[j + 1];
          assert OpensFirst(cipher, keys[1..], token, k - 1, payload);
        }
      }
    }
  }

  /**
   * Of any text: it is no token exactly if with its padding restored it is not well formed, or no key opens
   * its bytes; else the payload is that of the first key that does, and the time that of bytes 1 to 8, if any.
   */
  lemma UnpackMeaning(cipher: Cipher, keys: seq<Key>, token: string, b: seq<Byte>, k: nat, payload: seq<Byte>)
    ensures var text := RestorePadding(token);
            && |text| % 4 == 0 && token <= text
            && (Unpack(cipher, keys, token) == Err(InvalidToken) <==>
                  || (forall pad: nat :: !WellFormed(text, pad))
                  || (Decode(text).Some? && forall key :: key in keys ==> cipher.open(key, Decode(text).value).None?))
            && (Decode(text) == Some(b) && OpensFirst(cipher, keys, b, k, payload) ==>
                  Unpack(cipher, keys, token) ==
                    if |b| >= 9 then Ok((payload, BigEndian(b[1..9]))) else Err(NoCreationTime))
  {
    var text := RestorePadding(token);
    RestoredIsFourfold(token);
    DecodesWellFormed(text);
    hide Decode, BigEndian, RestorePadding, WellFormed;
    if Decode(text).Some? {
      NothingOpens(cipher, keys, Decode(text).value);
      DecryptMeaning(cipher, keys, Decode(text).value, payload);
      hide Decrypt;
    }
  }

  lemma RestoredIsFourfold(token: string)
    ensures |RestorePadding(token)| % 4 == 0 && token <= RestorePadding(token)
  {
    assert Repeat('=', 1) == "=" && Repeat('=', 2) == "==" && Repeat('=', 3) == "===";
  }

  lemma {:induction false} NothingOpens(cipher: Cipher, keys: seq<Key>, token: seq<Byte>)
    ensures Decrypt(cipher, keys, token) == None <==> forall key :: key in keys ==> cipher.open(key, token).None?
  {
    if keys != [] {
      NothingOpens(cipher, keys[1..], token);
      assert keys == [keys[0]] + keys[1..];
    }
  }

  /**
   * End to end: a server that loaded its keys after rotation n reads the payload
   * and creation time of a token packed after rotation m exactly when the
   * rotation window allows it, and otherwise reports an invalid token.
   */
  lemma TokenAcrossServers(cipher: Cipher, gen: seq<Key>, days: nat, m: nat, n: nat, time: nat, payload: seq<Byte>)
    requires Authentic(cipher) && AllDistinct(gen)
    requires 1 <= m < |gen| && 1 <= n < |gen| && time < Power256(8)
    ensures Unpack(cipher, Loaded(After(gen, days + 2, n)), Pack(cipher, Primary(gen, days + 2, m), time, payload))
         == if n - days <= m <= n + 1 then Ok((payload, time)) else Err(InvalidToken)
  {
    hide Loaded, After, Decrypt, Encode, Decode, StripPadding, RestorePadding, Power256;
    var keys := Loaded(After(gen, days + 2, n));
    var key := Primary(gen, days + 2, m);
    var token := cipher.seal(key, time, payload);
    CrossServerWindow(gen, days + 2, m, n);
    PaddingRoundTrip(token);
    DecodeEncode(token);
    DecryptSealed(cipher, keys, key, time, payload);
    assert token[TIMESTAMP_START..TIMESTAMP_END] == ToBytes(time, 8);
    BigEndianToBytes(time, 8);
  }
}
