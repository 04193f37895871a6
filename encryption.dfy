/** The message-encryption hook: the XOR-and-Base64 cipher, the random key,
    the four modes and the hook's state. */
module Encryption {
  import opened JsText
  import opened Base64
  import opened Hieroglyphs

  // ----- Bitwise XOR on non-negative integers -----

  function Pow2(n: nat): (r: nat)
    ensures r >= 1
  {
    if n == 0 then 1 else 2 * Pow2(n - 1)
  }

  /** `a ^ b`, bit by bit from the least significant end. */
  function Xor(a: nat, b: nat): nat
    decreases a + b
  {
    if a == 0 && b == 0 then 0 else 2 * Xor(a / 2, b / 2) + (if a % 2 == b % 2 then 0 else 1)
  }

  lemma {:induction false} XorZero(a: nat)
    ensures Xor(a, 0) == a
    decreases a
  {
    if a != 0 {
      XorZero(a / 2);
    }
  }

  /** XOR with the same operand twice gives the first operand back. */
  lemma {:induction false} XorInvolutive(a: nat, b: nat)
    ensures Xor(Xor(a, b), b) == a
    decreases a + b
  {
    var c := Xor(a, b);
    if a == 0 && b == 0 {
    } else if c == 0 && b == 0 {
      XorZero(a);
    } else {
      XorInvolutive(a / 2, b / 2);
      assert c / 2 == Xor(a / 2, b / 2);
    }
  }

  /** Two n-bit operands give an n-bit result. */
  lemma {:induction false} XorBelow(a: nat, b: nat, n: nat)
    requires a < Pow2(n) && b < Pow2(n)
    ensures Xor(a, b) < Pow2(n)
  {
    if n > 0 && !(a == 0 && b == 0) {
      XorBelow(a / 2, b / 2, n - 1);
    }
  }

  /** A bit at or above position n in `a` that `b` does not have survives. */
  lemma {:induction false} XorAtLeast(a: nat, b: nat, n: nat)
    requires a >= Pow2(n) && b < Pow2(n)
    ensures Xor(a, b) >= Pow2(n)
  {
    if n == 0 {
      XorZero(a);
    } else {
      XorAtLeast(a / 2, b / 2, n - 1);
    }
  }

  /** XOR of two code units is a code unit; it stays in Latin-1 when both
      operands are Latin-1 and stays above it when only the first is above. */
  lemma XorOfUnits(a: CodeUnit, b: CodeUnit)
    ensures Xor(a, b) < 0x1_0000
    ensures a < 256 && b < 256 ==> Xor(a, b) < 256
    ensures a >= 256 && b < 256 ==> Xor(a, b) >= 256
  {
    assert Pow2(8) == 256 && Pow2(16) == 0x1_0000;
    XorBelow(a, b, 16);
    if a < 256 && b < 256 {
      XorBelow(a, b, 8);
    }
    if a >= 256 && b < 256 {
      XorAtLeast(a, b, 8);
    }
  }

  /** `String.fromCharCode(charCode ^ keyCode)` for two code units. */
  function XorUnit(a: CodeUnit, b: CodeUnit): (r: CodeUnit)
    ensures a < 256 && b < 256 ==> r < 256
    ensures a >= 256 && b < 256 ==> r >= 256
  {
    XorOfUnits(a, b);
    Xor(a, b)
  }

  // ----- The cipher -----

  /** `key.charCodeAt(i % key.length)`. For the empty key the index is NaN,
      `charCodeAt` yields NaN and `x ^ NaN` is `x ^ 0`, so the code is 0. */
  function KeyCode(key: JsString, i: nat): CodeUnit
  {
    if |key| == 0 then 0 else key[i % |key|]
  }

  /** The loop shared by `simpleEncrypt` and `simpleDecrypt`: every code unit
      XOR-ed with the key code unit at the same position, the key repeating. */
  function XorWithKey(text: JsString, key: JsString): (r: JsString)
    ensures |r| == |text|
    ensures forall i | 0 <= i < |text| :: r[i] == XorUnit(text[i], KeyCode(key, i))
  {
    seq(|text|, i requires 0 <= i < |text| => XorUnit(text[i], KeyCode(key, i)))
  }

  /** Applying the key twice restores the text, whatever the key. */
  lemma XorWithKeyInvolutive(text: JsString, key: JsString)
    ensures XorWithKey(XorWithKey(text, key), key) == text
  {
    var once := XorWithKey(text, key);
    forall i | 0 <= i < |text|
      ensures XorUnit(once[i], KeyCode(key, i)) == text[i]
    {
      XorInvolutive(text[i], KeyCode(key, i));
    }
  }

  /** A key made of Latin-1 units keeps Latin-1 text Latin-1 and keeps every
      unit above Latin-1 above it. */
  lemma LatinKeyPreservesRange(text: JsString, key: JsString)
    requires IsLatin1(key)
    ensures IsLatin1(XorWithKey(text, key)) <==> IsLatin1(text)
  {
    forall i | 0 <= i < |text|
      ensures KeyCode(key, i) < 256
    {
      if |key| > 0 {
        assert key[i % |key|] < 256;
      }
    }
  }

  /** `simpleEncrypt(text, key)`: the XOR-ed text through `btoa`, which throws
      when some XOR-ed unit is above Latin-1. */
  function BasicCipher(text: JsString, key: JsString): (r: Result<JsString>)
    ensures r.Err? <==> !IsLatin1(XorWithKey(text, key))
    ensures r.Ok? ==> |r.value| == 4 * ((|text| + 2) / 3)
  {
    Btoa(XorWithKey(text, key))
  }

  /** `simpleDecrypt(encrypted, key)`: when `atob` throws, the input is kept. */
  function BasicDecipher(encrypted: JsString, key: JsString): (r: JsString)
    ensures Atob(encrypted).Err? ==> r == encrypted
    ensures Atob(encrypted).Ok? ==> |r| == |Atob(encrypted).value|
  {
    match Atob(encrypted)
    case Ok(decoded) => XorWithKey(decoded, key)
    case Err(_) => encrypted
  }

  method SimpleEncrypt(text: JsString, key: JsString) returns (r: Result<JsString>)
    ensures r == BasicCipher(text, key)
  {
    var encrypted: JsString := [];
    var i := 0;
    while i < |text|
      invariant 0 <= i <= |text|
      invariant encrypted == XorWithKey(text[..i], key)
    {
      encrypted := encrypted + [XorUnit(text[i], KeyCode(key, i))];
      i := i + 1;
    }
    assert text[..i] == text;
    r := Btoa(encrypted);
  }

  method SimpleDecrypt(encrypted: JsString, key: JsString) returns (r: JsString)
    ensures r == BasicDecipher(encrypted, key)
    ensures Atob(encrypted).Err? ==> r == encrypted
    ensures Atob(encrypted).Ok? ==> |r| == |Atob(encrypted).value|
  {
    var attempt := Atob(encrypted);
    if attempt.Err? {
      return encrypted;
    }
    var decoded := attempt.value;
    var decrypted: JsString := [];
    var i := 0;
    while i < |decoded|
      invariant 0 <= i <= |decoded|
      invariant decrypted == XorWithKey(decoded[..i], key)
    {
      decrypted := decrypted + [XorUnit(decoded[i], KeyCode(key, i))];
      i := i + 1;
    }
    assert decoded[..i] == decoded;
    r := decrypted;
  }

  /** With a Latin-1 key (every generated key is one, and so is the empty
      key), encryption throws exactly when the text leaves Latin-1, and the
      result has the Base64 length of the text. */
  lemma BasicCipherDecided(text: JsString, key: JsString)
    requires IsLatin1(key)
    ensures BasicCipher(text, key).Err? <==> !IsLatin1(text)
    ensures BasicCipher(text, key).Ok? ==> |BasicCipher(text, key).value| == 4 * ((|text| + 2) / 3)
  {
    LatinKeyPreservesRange(text, key);
  }

  /** Whatever the key, decrypting what encryption produced gives the text back. */
  lemma BasicRoundTrip(text: JsString, key: JsString)
    requires BasicCipher(text, key).Ok?
    ensures BasicDecipher(BasicCipher(text, key).value, key) == text
  {
    var x := XorWithKey(text, key);
    AtobBtoa(x);
    XorWithKeyInvolutive(text, key);
  }

  // ----- Key generation -----

  /** Position `i` of 'ABCDEFGHIJKLMNOPQRSTUVWXYZabcdefghijklmnopqrstuvwxyz0123456789'. */
  function KeyAlphabetAt(i: nat): CodeUnit
    requires i < 62
  {
    if i < 26 then 'A' as int + i else if i < 52 then 'a' as int + (i - 26) else '0' as int + (i - 52)
  }

  /** The 62 characters `generateKey` draws from. */
  function KeyAlphabet(): (r: JsString)
    ensures |r| == 62
    ensures forall i | 0 <= i < 62 :: r[i] == KeyAlphabetAt(i)
  {
    seq(62, i requires 0 <= i < 62 => KeyAlphabetAt(i))
  }

  predicate IsKeyUnit(c: CodeUnit)
  {
    'A' as int <= c <= 'Z' as int || 'a' as int <= c <= 'z' as int || '0' as int <= c <= '9' as int
  }

  /** `generateKey`, each loop iteration consuming one value of `Math.random()`. */
  method GenerateKey(draws: seq<real>) returns (result: JsString)
    requires |draws| == 32
    ensures result == DrawnString(KeyAlphabet(), draws)
  {
    result := [];
    var i := 0;
    while i < 32
      invariant 0 <= i <= 32
      invariant result == DrawnString(KeyAlphabet(), draws[..i])
    {
      assert draws[..i + 1][..i] == draws[..i];
      result := result + CharAt(KeyAlphabet(), ScaledIndex(draws[i], |KeyAlphabet()|));
      i := i + 1;
    }
    assert draws[..i] == draws;
  }

  /** A generated key is 32 alphanumeric units, so it is Latin-1 and not empty. */
  lemma GeneratedKeyShape(draws: seq<real>)
    requires |draws| == 32 && AreRandomValues(draws)
    ensures |DrawnString(KeyAlphabet(), draws)| == 32
    ensures forall i | 0 <= i < 32 :: IsKeyUnit(DrawnString(KeyAlphabet(), draws)[i])
    ensures IsLatin1(DrawnString(KeyAlphabet(), draws))
  {
    var k := DrawnString(KeyAlphabet(), draws);
    DrawnStringShape(KeyAlphabet(), draws);
    forall i | 0 <= i < 32
      ensures IsKeyUnit(k[i])
    {
      ScaledIndexInRange(draws[i], 62);
    }
  }

  // ----- Modes -----

  datatype Mode = NoEncryption | Basic | Hieroglyphic | Advanced

  /** `encryptMessage` in the given mode with the given key; `Err` is the
      exception `btoa` throws, which `encryptMessage` does not catch. */
  function EncryptSpec(mode: Mode, key: JsString, message: JsString): (r: Result<JsString>)
    ensures mode == NoEncryption ==> r == Ok(message)
    ensures mode == Hieroglyphic ==> r.Ok? && |message| <= |r.value| <= 2 * |message|
    ensures mode == Basic ==> (r.Ok? <==> IsLatin1(XorWithKey(message, key)))
    ensures mode == Advanced ==> (r.Ok? <==> IsLatin1(XorWithKey(ConvertToHieroglyphic(message), key)))
  {
    match mode
    case Basic => BasicCipher(message, key)
    case Hieroglyphic => Ok(ConvertToHieroglyphic(message))
    case Advanced => BasicCipher(ConvertToHieroglyphic(message), key)
    case NoEncryption => Ok(message)
  }

  /** `decryptMessage` in the given mode with the given key, as written: the
      glyph modes hand every single unit to the reverse map
      (`ConvertFromHieroglyphic`), so they never turn a glyph back. */
  function DecryptSpec(mode: Mode, key: JsString, encrypted: JsString): (r: JsString)
    ensures mode == NoEncryption || mode == Hieroglyphic ==> r == encrypted
    ensures mode == Basic || mode == Advanced ==> r == BasicDecipher(encrypted, key)
  {
    match mode
    case Basic => BasicDecipher(encrypted, key)
    case Hieroglyphic => ConvertFromHieroglyphic(encrypted)
    case Advanced => ConvertFromHieroglyphic(BasicDecipher(encrypted, key))
    case NoEncryption => encrypted
  }

  /** `decryptMessage` as evidently intended: the glyph modes use the
      corrected reverse conversion `DecodeGlyphs`, which reads each glyph as
      the surrogate pair it is. */
  function DecryptSpecIntended(mode: Mode, key: JsString, encrypted: JsString): (r: JsString)
    ensures mode == NoEncryption || mode == Basic ==> r == DecryptSpec(mode, key, encrypted)
    ensures mode == Hieroglyphic ==> |r| <= |encrypted|
    ensures mode == Advanced ==> |r| <= |BasicDecipher(encrypted, key)|
  {
    match mode
    case Basic => BasicDecipher(encrypted, key)
    case Hieroglyphic => DecodeGlyphs(encrypted)
    case Advanced => DecodeGlyphs(BasicDecipher(encrypted, key))
    case NoEncryption => encrypted
  }

  /** As written, hieroglyphic mode does not round-trip: "b" encrypts to
      the pair D80C DCC0 and decrypts to that same pair. */
  lemma HieroglyphicModeLosesB(key: JsString)
    ensures EncryptSpec(Hieroglyphic, key, ['b' as int]) == Ok([0xD80C, 0xDCC0])
    ensures DecryptSpec(Hieroglyphic, key, EncryptSpec(Hieroglyphic, key, ['b' as int]).value) != ['b' as int]
  {
    AsWrittenLosesB();
  }

  /** Basic mode with a Latin-1 key: a Latin-1 message encrypts and decrypts
      back to itself, any other message makes encryption throw. */
  lemma BasicModeRoundTrip(key: JsString, message: JsString)
    requires IsLatin1(key)
    ensures EncryptSpec(Basic, key, message).Ok? <==> IsLatin1(message)
    ensures EncryptSpec(Basic, key, message).Ok? ==>
              DecryptSpec(Basic, key, EncryptSpec(Basic, key, message).value) == message
  {
    BasicCipherDecided(message, key);
    if IsLatin1(message) {
      BasicRoundTrip(message, key);
    }
  }

  /** A mapped unit puts a high surrogate into the glyph text. */
  lemma GlyphTextLeavesLatin1(s: JsString, i: nat)
    requires i < |s| && Lookup(s[i]).Some?
    ensures !IsLatin1(MapToGlyphs(s))
  {
    SplitAround(s, i);
    MapToGlyphsAround(s[..i], s[i], s[i + 1..]);
    MapToGlyphsUnit(s[i]);
    LeadOfMiddle(MapToGlyphs(s[..i]), MapToGlyphs([s[i]]), MapToGlyphs(s[i + 1..]));
  }

  /** The first unit of the middle part of a concatenation sits right after the first part. */
  lemma LeadOfMiddle(a: JsString, c: JsString, b: JsString)
    requires 0 < |c| && 256 <= c[0]
    ensures !IsLatin1(a + c + b)
  {
    assert (a + c + b)[|a|] == c[0];
  }

  /** Advanced mode with a Latin-1 key throws on every message that has a
      unit with a glyph: the glyph's high surrogate XOR a Latin-1 key unit is
      never Latin-1. */
  lemma AdvancedModeRejectsGlyphs(key: JsString, message: JsString, i: nat)
    requires IsLatin1(key)
    requires i < |message| && Lookup(LowerUnit(message[i])).Some?
    ensures EncryptSpec(Advanced, key, message).Err?
  {
    GlyphTextLeavesLatin1(ToLowerAscii(message), i);
    BasicCipherDecided(ConvertToHieroglyphic(message), key);
  }

  /** Advanced mode with a Latin-1 key: whenever encryption succeeds,
      decryption gives back the lower-cased message. */
  lemma AdvancedRoundTrip(key: JsString, message: JsString)
    requires IsLatin1(key)
    requires EncryptSpec(Advanced, key, message).Ok?
    ensures DecryptSpec(Advanced, key, EncryptSpec(Advanced, key, message).value) == ToLowerAscii(message)
    ensures DecryptSpecIntended(Advanced, key, EncryptSpec(Advanced, key, message).value) == ToLowerAscii(message)
  {
    var lower := ToLowerAscii(message);
    forall i | 0 <= i < |lower|
      ensures Lookup(lower[i]).None?
    {
      if Lookup(lower[i]).Some? {
        AdvancedModeRejectsGlyphs(key, message, i);
      }
    }
    BasicRoundTrip(lower, key);
    BasicCipherDecided(lower, key);
    assert forall i | 0 <= i < |lower| :: Recoverable(lower[i]);
    DecodeInvertsMap(lower);
  }

  /** Hieroglyphic mode with the corrected decryption: it gives back the
      lower-cased message whenever every lower-cased unit is recoverable from
      its glyph. */
  lemma HieroglyphicRoundTrip(key: JsString, message: JsString)
    requires forall i | 0 <= i < |message| :: Recoverable(LowerUnit(message[i]))
    ensures DecryptSpecIntended(Hieroglyphic, key, EncryptSpec(Hieroglyphic, key, message).value) == ToLowerAscii(message)
  {
    DecodeAfterConvert(message);
  }

  // ----- The hook's state -----

  /** The state of `useEncryption`: the selected mode and the key. */
  class EncryptionState {
    var mode: Mode
    var key: JsString

    /** The first render: mode 'none', empty key. */
    constructor ()
      ensures mode == NoEncryption && key == []
    {
      mode := NoEncryption;
      key := [];
    }

    /** `setEncryptionMode`. */
    method SetMode(m: Mode)
      modifies this
      ensures mode == m && key == old(key)
    {
      mode := m;
    }

    /** `setEncryptionKey`. */
    method SetKey(k: JsString)
      modifies this
      ensures key == k && mode == old(mode)
    {
      key := k;
    }

    /** The effect that runs whenever the key changes: an empty key is
        replaced by a generated one, any other key is kept. */
    method KeyEffect(draws: seq<real>)
      requires |draws| == 32
      modifies this
      ensures mode == old(mode)
      ensures old(key) == [] ==> key == DrawnString(KeyAlphabet(), draws)
      ensures old(key) != [] ==> key == old(key)
    {
      if key == [] {
        key := GenerateKey(draws);
      }
    }

    /** `encryptMessage`. */
    method EncryptMessage(message: JsString) returns (r: Result<JsString>)
      ensures r == EncryptSpec(mode, key, message)
      ensures mode == NoEncryption ==> r == Ok(message)
      ensures mode == Hieroglyphic ==> r == Ok(ConvertToHieroglyphic(message))
    {
      match mode
      case Basic =>
        r := SimpleEncrypt(message, key);
      case Hieroglyphic =>
        r := Ok(ConvertToHieroglyphic(message));
      case Advanced =>
        var glyphs := ConvertToHieroglyphic(message);
        r := SimpleEncrypt(glyphs, key);
      case NoEncryption =>
        r := Ok(message);
    }

    /** `decryptMessage`. */
    method DecryptMessage(encrypted: JsString) returns (r: JsString)
      ensures r == DecryptSpec(mode, key, encrypted)
      ensures mode == NoEncryption ==> r == encrypted
      ensures mode == Hieroglyphic ==> r == encrypted
      ensures mode == Advanced ==> r == BasicDecipher(encrypted, key)
    {
      match mode
      case Basic =>
        r := SimpleDecrypt(encrypted, key);
      case Hieroglyphic =>
        r := ConvertFromHieroglyphic(encrypted);
      case Advanced =>
        var decrypted := SimpleDecrypt(encrypted, key);
        r := ConvertFromHieroglyphic(decrypted);
      case NoEncryption =>
        r := encrypted;
    }
  }
}
