/** The character-substitution half of useEncryption: the glyph table, its
    reverse, and the conversions in both directions. */
module Hieroglyphs {
  import opened JsText

  /** A code point outside the Basic Multilingual Plane. */
  type SupplementaryCodePoint = x: int | 0x1_0000 <= x < 0x11_0000 witness 0x1_0000

  /** One key/value pair of the glyph table; every glyph is a single
      Egyptian-hieroglyph code point. */
  datatype Entry = Entry(key: CodeUnit, glyph: SupplementaryCodePoint)

  /** The table in the order `Object.entries` lists it: the integer-like keys
      '0'..'9' first, then every other key in the order of the object literal.
      One row per line of the literal. */
  const Row0: seq<Entry> := [Entry('0' as int, '𓏢' as int), Entry('1' as int, '𓏤' as int), Entry('2' as int, '𓏥' as int), Entry('3' as int, '𓏦' as int), Entry('4' as int, '𓏧' as int), Entry('5' as int, '𓏨' as int)]
  const Row1: seq<Entry> := [Entry('6' as int, '𓏩' as int), Entry('7' as int, '𓏪' as int), Entry('8' as int, '𓏫' as int), Entry('9' as int, '𓏬' as int)]
  const Row2: seq<Entry> := [Entry('ا' as int, '𓂋' as int), Entry('ب' as int, '𓃀' as int), Entry('ت' as int, '𓏏' as int), Entry('ث' as int, '𓊃' as int), Entry('ج' as int, '𓈎' as int), Entry('ح' as int, '𓉔' as int), Entry('خ' as int, '𓐍' as int)]
  const Row3: seq<Entry> := [Entry('د' as int, '𓂧' as int), Entry('ذ' as int, '𓊃' as int), Entry('ر' as int, '𓂋' as int), Entry('ز' as int, '𓊃' as int), Entry('س' as int, '𓋴' as int), Entry('ش' as int, '𓈝' as int), Entry('ص' as int, '𓋴' as int)]
  const Row4: seq<Entry> := [Entry('ض' as int, '𓂧' as int), Entry('ط' as int, '𓏏' as int), Entry('ظ' as int, '𓊃' as int), Entry('ع' as int, '𓂝' as int), Entry('غ' as int, '𓈎' as int), Entry('ف' as int, '𓆑' as int), Entry('ق' as int, '𓈎' as int)]
  const Row5: seq<Entry> := [Entry('ك' as int, '𓂓' as int), Entry('ل' as int, '𓃭' as int), Entry('م' as int, '𓅓' as int), Entry('ن' as int, '𓈖' as int), Entry('ه' as int, '𓉔' as int), Entry('و' as int, '𓅱' as int), Entry('ي' as int, '𓇋' as int)]
  const Row6: seq<Entry> := [Entry('a' as int, '𓄿' as int), Entry('b' as int, '𓃀' as int), Entry('c' as int, '𓈎' as int), Entry('d' as int, '𓂧' as int), Entry('e' as int, '𓂝' as int), Entry('f' as int, '𓆑' as int), Entry('g' as int, '𓎼' as int)]
  const Row7: seq<Entry> := [Entry('h' as int, '𓉔' as int), Entry('i' as int, '𓇋' as int), Entry('j' as int, '𓆳' as int), Entry('k' as int, '𓂓' as int), Entry('l' as int, '𓃭' as int), Entry('m' as int, '𓅓' as int), Entry('n' as int, '𓈖' as int)]
  const Row8: seq<Entry> := [Entry('o' as int, '𓅱' as int), Entry('p' as int, '𓊪' as int), Entry('q' as int, '𓈎' as int), Entry('r' as int, '𓂋' as int), Entry('s' as int, '𓋴' as int), Entry('t' as int, '𓏏' as int), Entry('u' as int, '𓅱' as int)]
  const Row9: seq<Entry> := [Entry('v' as int, '𓆑' as int), Entry('w' as int, '𓅱' as int), Entry('x' as int, '𓐍' as int), Entry('y' as int, '𓇋' as int), Entry('z' as int, '𓊃' as int)]
  const Row10: seq<Entry> := [Entry(' ' as int, '𓈚' as int), Entry('.' as int, '𓊃' as int), Entry('!' as int, '𓋴' as int), Entry('?' as int, '𓈎' as int), Entry(',' as int, '𓊪' as int), Entry(':' as int, '𓏏' as int)]

  const Entries: seq<Entry> := Row0 + Row1 + Row2 + Row3 + Row4 + Row5 + Row6 + Row7 + Row8 + Row9 + Row10

  /** The UTF-16 form of a supplementary code point: a surrogate pair, so
      every glyph string has length 2. */
  function Utf16(cp: SupplementaryCodePoint): (r: JsString)
    ensures |r| == 2 && 0xD800 <= r[0] < 0xDC00 && 0xDC00 <= r[1] < 0xE000
  {
    [0xD800 + (cp - 0x1_0000) / 0x400, 0xDC00 + (cp - 0x1_0000) % 0x400]
  }

  /** The glyph of the first entry from position `i` on whose key is `c`. */
  function LookupFrom(i: nat, c: CodeUnit): Option<SupplementaryCodePoint>
    decreases |Entries| - i
  {
    if i >= |Entries| then None
    else if Entries[i].key == c then Some(Entries[i].glyph)
    else LookupFrom(i + 1, c)
  }

  /** `HIEROGLYPHIC_MAP[c]`. */
  function Lookup(c: CodeUnit): Option<SupplementaryCodePoint>
  {
    LookupFrom(0, c)
  }

  /** The key of the LAST entry from position `i` on whose glyph string is
      `g`: `Object.fromEntries` lets a later pair overwrite an earlier one. */
  function ReverseFrom(i: nat, g: JsString): Option<CodeUnit>
    decreases |Entries| - i
  {
    if i >= |Entries| then None
    else match ReverseFrom(i + 1, g)
      case Some(k) => Some(k)
      case None => if Utf16(Entries[i].glyph) == g then Some(Entries[i].key) else None
  }

  /** `REVERSE_HIEROGLYPHIC_MAP[g]`. */
  function ReverseLookup(g: JsString): Option<CodeUnit>
  {
    ReverseFrom(0, g)
  }

  /** Distinct glyphs have distinct UTF-16 forms. */
  lemma Utf16Injective(a: SupplementaryCodePoint, b: SupplementaryCodePoint)
    requires Utf16(a) == Utf16(b)
    ensures a == b
  {
    assert (a - 0x1_0000) / 0x400 == (b - 0x1_0000) / 0x400;
    assert (a - 0x1_0000) % 0x400 == (b - 0x1_0000) % 0x400;
  }

  /** The forward lookup from `i` finds the entry at `k` when no entry in
      between has key `c`. */
  lemma {:induction false} LookupFromFinds(i: nat, k: nat, c: CodeUnit)
    requires i <= k < |Entries| && Entries[k].key == c
    requires forall j | i <= j < k :: Entries[j].key != c
    ensures LookupFrom(i, c) == Some(Entries[k].glyph)
    decreases k - i
  {
    if i < k {
      LookupFromFinds(i + 1, k, c);
    }
  }

  /** No entry from `i` on has glyph `cp`: the reverse lookup from `i` misses. */
  lemma {:induction false} ReverseFromMisses(i: nat, cp: SupplementaryCodePoint)
    requires forall j | i <= j < |Entries| :: Entries[j].glyph != cp
    ensures ReverseFrom(i, Utf16(cp)) == None
    decreases |Entries| - i
  {
    if i < |Entries| {
      ReverseFromMisses(i + 1, cp);
      if Utf16(Entries[i].glyph) == Utf16(cp) {
        Utf16Injective(Entries[i].glyph, cp);
      }
    }
  }

  /** The reverse lookup from `i` yields the key at `k` when `k` is the last
      entry with glyph `cp`. */
  lemma {:induction false} ReverseFromFinds(i: nat, k: nat, cp: SupplementaryCodePoint)
    requires i <= k < |Entries| && Entries[k].glyph == cp
    requires forall j | k < j < |Entries| :: Entries[j].glyph != cp
    ensures ReverseFrom(i, Utf16(cp)) == Some(Entries[k].key)
    decreases k - i
  {
    if i < k {
      ReverseFromFinds(i + 1, k, cp);
    } else {
      ReverseFromMisses(k + 1, cp);
    }
  }

  /** Only a surrogate pair of some glyph has a reverse entry. */
  lemma {:induction false} ReverseFromHitsPairs(i: nat, g: JsString)
    ensures ReverseFrom(i, g).Some? ==> |g| == 2 && 0xD800 <= g[0] < 0xDC00
    decreases |Entries| - i
  {
    if i < |Entries| {
      ReverseFromHitsPairs(i + 1, g);
    }
  }

  /** `HIEROGLYPHIC_MAP[char] || char`: the glyph, or the unit itself when unmapped. */
  function GlyphOf(c: CodeUnit): (r: JsString)
    ensures 1 <= |r| <= 2
  {
    match Lookup(c)
    case Some(g) => Utf16(g)
    case None => [c]
  }

  /** `.split('').map(char => HIEROGLYPHIC_MAP[char] || char).join('')`. */
  function MapToGlyphs(s: JsString): (r: JsString)
    ensures |s| <= |r| <= 2 * |s|
  {
    if s == [] then [] else GlyphOf(s[0]) + MapToGlyphs(s[1..])
  }

  /** `convertToHieroglyphic` (and the 'hieroglyphic' branch of `encryptMessage`). */
  function ConvertToHieroglyphic(text: JsString): (r: JsString)
    ensures |text| <= |r| <= 2 * |text|
    ensures (forall i | 0 <= i < |text| :: Lookup(LowerUnit(text[i])).None?) ==> r == ToLowerAscii(text)
  {
    MapToGlyphsUnmapped(ToLowerAscii(text));
    MapToGlyphs(ToLowerAscii(text))
  }

  /** Text without mapped units passes through the glyph conversion unchanged. */
  lemma {:induction false} MapToGlyphsUnmapped(s: JsString)
    ensures (forall i | 0 <= i < |s| :: Lookup(s[i]).None?) ==> MapToGlyphs(s) == s
  {
    if s != [] {
      MapToGlyphsUnmapped(s[1..]);
      assert s == [s[0]] + s[1..];
    }
  }

  /** The conversion works unit by unit, so it distributes over concatenation. */
  lemma {:induction false} MapToGlyphsLayout(s: JsString, t: JsString)
    ensures MapToGlyphs(s + t) == MapToGlyphs(s) + MapToGlyphs(t)
  {
    if s != [] {
      assert (s + t)[1..] == s[1..] + t;
      MapToGlyphsLayout(s[1..], t);
    } else {
      assert s + t == t;
    }
  }

  /** The glyph text of `a + [c] + b` is that of `a`, then that of `c`, then that of `b`. */
  lemma MapToGlyphsAround(a: JsString, c: CodeUnit, b: JsString)
    ensures MapToGlyphs(a + [c] + b) == MapToGlyphs(a) + MapToGlyphs([c]) + MapToGlyphs(b)
  {
    MapToGlyphsLayout(a + [c], b);
    MapToGlyphsLayout(a, [c]);
  }

  /** Each unmapped unit is kept, each mapped unit becomes its two-unit glyph. */
  lemma MapToGlyphsUnit(c: CodeUnit)
    ensures Lookup(c).None? ==> MapToGlyphs([c]) == [c]
    ensures Lookup(c).Some? ==> MapToGlyphs([c]) == Utf16(Lookup(c).value)
  {
    assert [c][1..] == [];
  }

  // ----- The reverse direction as written -----

  /** `REVERSE_HIEROGLYPHIC_MAP[char] || char` for one code unit. */
  function ReverseUnit(u: CodeUnit): CodeUnit
  {
    match ReverseLookup([u])
    case Some(k) => k
    case None => u
  }

  /** `convertFromHieroglyphic` as written: `split('')` hands the reverse map
      one code unit at a time (and the 'hieroglyphic' branch of `decryptMessage`). */
  function ConvertFromHieroglyphic(s: JsString): (r: JsString)
    ensures r == s
  {
    SingleUnitsMiss(s);
    seq(|s|, i requires 0 <= i < |s| => ReverseUnit(s[i]))
  }

  /** Since every reverse key is a two-unit surrogate pair, no single unit is
      ever found: the conversion as written returns its input unchanged. */
  lemma SingleUnitsMiss(s: JsString)
    ensures forall i | 0 <= i < |s| :: ReverseUnit(s[i]) == s[i]
  {
    forall i | 0 <= i < |s| ensures ReverseUnit(s[i]) == s[i] {
      ReverseFromHitsPairs(0, [s[i]]);
    }
  }

  /** A concrete input: the glyph of 'b' is not turned back into 'b'. */
  lemma AsWrittenLosesB()
    ensures ConvertToHieroglyphic(['b' as int]) == [0xD80C, 0xDCC0]
    ensures ConvertFromHieroglyphic(ConvertToHieroglyphic(['b' as int])) != ['b' as int]
  {
    LookupB();
    assert ToLowerAscii(['b' as int]) == ['b' as int];
    MapToGlyphsUnit('b' as int);
  }

  lemma LookupB()
    ensures Lookup('b' as int) == Some('𓃀' as int)
  {
    LookupFromFinds(0, 39, 'b' as int);
  }

  // ----- The reverse direction as intended -----

  /** The intended reverse conversion: a surrogate pair that is some glyph is
      replaced by the key the reverse map keeps; every other unit is kept. */
  function DecodeGlyphs(s: JsString): (r: JsString)
    ensures |r| <= |s|
  {
    if s == [] then []
    else if |s| >= 2 && ReverseLookup(s[..2]).Some? then [ReverseLookup(s[..2]).value] + DecodeGlyphs(s[2..])
    else [s[0]] + DecodeGlyphs(s[1..])
  }

  /** Text without a high surrogate holds no glyph, so the corrected
      conversion keeps it unchanged. */
  lemma {:induction false} DecodeGlyphsKeepsPlain(s: JsString)
    requires forall i | 0 <= i < |s| :: !(0xD800 <= s[i] < 0xDC00)
    ensures DecodeGlyphs(s) == s
  {
    if s != [] {
      if |s| >= 2 {
        ReverseFromHitsPairs(0, s[..2]);
        assert s[..2][0] == s[0];
      }
      DecodeGlyphsKeepsPlain(s[1..]);
      assert s == [s[0]] + s[1..];
    }
  }

  /** A unit that survives the round trip: a mapped unit whose glyph the
      reverse map sends back to it, or an unmapped unit that cannot start a
      surrogate pair. */
  predicate Recoverable(c: CodeUnit)
  {
    match Lookup(c)
    case Some(g) => ReverseLookup(Utf16(g)) == Some(c)
    case None => !(0xD800 <= c < 0xDC00)
  }

  lemma {:induction false} DecodeInvertsMap(s: JsString)
    requires forall i | 0 <= i < |s| :: Recoverable(s[i])
    ensures DecodeGlyphs(MapToGlyphs(s)) == s
  {
    if s != [] {
      var m := MapToGlyphs(s);
      var rest := MapToGlyphs(s[1..]);
      assert m == GlyphOf(s[0]) + rest;
      assert Recoverable(s[0]);
      DecodeInvertsMap(s[1..]);
      match Lookup(s[0])
      case Some(g) =>
        assert m[..2] == Utf16(g) && m[2..] == rest;
      case None =>
        assert m == [s[0]] + rest && m[1..] == rest;
        if |m| >= 2 {
          ReverseFromHitsPairs(0, m[..2]);
        }
      assert s == [s[0]] + s[1..];
    }
  }

  /** The corrected conversion undoes `convertToHieroglyphic` up to lower-casing
      on every text made of recoverable units. */
  lemma DecodeAfterConvert(text: JsString)
    requires forall i | 0 <= i < |text| :: Recoverable(LowerUnit(text[i]))
    ensures DecodeGlyphs(ConvertToHieroglyphic(text)) == ToLowerAscii(text)
  {
    DecodeInvertsMap(ToLowerAscii(text));
  }

  /** The forward table is not injective: alef, reh and 'r' share one glyph. */
  lemma TableNotInjective()
    ensures Lookup('ا' as int) == Lookup('ر' as int) == Lookup('r' as int) == Some('𓂋' as int)
  {
    LookupAlef();
    LookupReh();
    LookupR();
  }

  lemma LookupAlef()
    ensures Lookup('ا' as int) == Some('𓂋' as int)
  {
    LookupFromFinds(0, 10, 'ا' as int);
  }

  lemma LookupReh()
    ensures Lookup('ر' as int) == Some('𓂋' as int)
  {
    LookupFromFinds(0, 19, 'ر' as int);
  }

  lemma LookupR()
    ensures Lookup('r' as int) == Some('𓂋' as int)
  {
    LookupFromFinds(0, 55, 'r' as int);
  }

  /** The reverse map keeps one key per glyph, the last one, so text -> glyph
      -> text is not the identity even with the corrected decoder. */
  lemma ReverseKeepsOneKey()
    ensures ReverseLookup(Utf16('𓂋' as int)) == Some('r' as int)
    ensures DecodeGlyphs(ConvertToHieroglyphic(['ا' as int])) == ['r' as int]
  {
    var g := Utf16('𓂋' as int);
    TableNotInjective();
    ReverseFromFinds(0, 55, '𓂋' as int);
    assert ToLowerAscii(['ا' as int]) == ['ا' as int];
    MapToGlyphsUnit('ا' as int);
    assert ConvertToHieroglyphic(['ا' as int]) == g;
    assert g[..2] == g && g[2..] == [];
  }
}
