/**
 * The identifier codec of core/src/spotify_id.rs.
 *
 * `SpotifyId` wraps an unsigned 128-bit integer and converts to and from
 * base-16 text, base-62 text and a 16-byte big-endian raw form; `FileId`
 * is a 20-byte value rendered as lowercase hex and ordered byte-wise.
 *
 * Each converter that the source writes as a loop over a mutable buffer or
 * accumulator is a method here, proved against a specification function;
 * the round trips and fixed widths are lemmas about those functions.
 */
module SpotifyIdCodec {
  import opened Numerals

  // ---------------------------------------------------------------------
  // Machine integers and results
  // ---------------------------------------------------------------------

  type u8 = x: nat | x < 0x100

  const U128_MODULUS: nat := 0x1_0000_0000_0000_0000_0000_0000_0000_0000
  type u128 = x: nat | x < 0x1_0000_0000_0000_0000_0000_0000_0000_0000

  /**
   * `usize` on a 64-bit target: `as usize` keeps the low 64 bits. On a
   * 32-bit target it keeps 32; the as-written `to_base16` then still
   * panics for exactly the values of 16 or more, because the highest
   * shift that leaves 16 or more leaves less than 256.
   */
  const USIZE_MODULUS: nat := 0x1_0000_0000_0000_0000

  datatype Option<T> = None | Some(value: T)

  datatype Result<T, E> = Ok(value: T) | Err(error: E)

  // ---------------------------------------------------------------------
  // Entities
  // ---------------------------------------------------------------------

  /** A 128-bit entity identifier; equality is equality of the value. */
  datatype SpotifyId = SpotifyId(n: u128)

  /** The single error of every parser in this file. */
  datatype SpotifyIdError = SpotifyIdError

  type FileBytes = s: seq<u8> | |s| == 20 witness seq(20, _ => 0)

  /** A 160-bit content identifier: 20 raw bytes. */
  datatype FileId = FileId(bytes: FileBytes)

  // ---------------------------------------------------------------------
  // Digit tables
  // ---------------------------------------------------------------------

  /** The base-62 alphabet: digit value d is the d-th character of 0-9, a-z, A-Z. */
  const BASE62_DIGITS: string := "0123456789" + "abcdefghijklmnopqrstuvwxyz" + "ABCDEFGHIJKLMNOPQRSTUVWXYZ"

  /** The base-16 alphabet, lowercase. */
  const BASE16_DIGITS: string := "0123456789abcdef"

  /** No character occurs twice in `table`. */
  predicate Distinct(table: string)
  {
    forall i, j :: 0 <= i < j < |table| ==> table[i] != table[j]
  }

  /** The character code of base-62 digit d. */
  function Base62Code(d: int): int
  {
    if d < 10 then 48 + d else if d < 36 then 87 + d else 29 + d
  }

  lemma Base62Table()
    ensures |BASE62_DIGITS| == 62
    ensures forall d :: 0 <= d < 62 ==> BASE62_DIGITS[d] as int == Base62Code(d)
  {
    var digits, lower, upper := "0123456789", "abcdefghijklmnopqrstuvwxyz", "ABCDEFGHIJKLMNOPQRSTUVWXYZ";
    assert forall d :: 0 <= d < 10 ==> digits[d] as int == 48 + d;
    assert forall d :: 0 <= d < 26 ==> lower[d] as int == 97 + d;
    assert forall d :: 0 <= d < 26 ==> upper[d] as int == 65 + d;
  }

  lemma Base16Table()
    ensures |BASE16_DIGITS| == 16
    ensures forall d :: 0 <= d < 16 ==> BASE16_DIGITS[d] as int == if d < 10 then 48 + d else 87 + d
  {
  }

  /** The base-62 alphabet assigns each character at most one digit value. */
  lemma Base62Distinct()
    ensures Distinct(BASE62_DIGITS)
  {
    Base62Table();
    DistinctByCode(BASE62_DIGITS, Base62Code);
  }

  /** A table whose character codes are given by an injective function has no repeats. */
  lemma DistinctByCode(table: string, code: int -> int)
    requires forall d :: 0 <= d < |table| ==> table[d] as int == code(d)
    requires forall i, j :: 0 <= i < j < |table| ==> code(i) != code(j)
    ensures Distinct(table)
  {
  }

  /** The base-16 alphabet assigns each character at most one digit value. */
  lemma Base16Distinct()
    ensures Distinct(BASE16_DIGITS)
  {
  }

  /** In an alphabet without repeats, equal characters have equal digit values. */
  lemma DigitInjective(table: string, x: nat, y: nat)
    requires Distinct(table) && x < |table| && y < |table| && table[x] == table[y]
    ensures x == y
  {
  }

  /**
   * The index of the first occurrence of `c` in `table`, as
   * `Iterator::position` returns it.
   */
  function Position(table: string, c: char): (r: Option<nat>)
    ensures r.None? <==> c !in table
    ensures r.Some? ==> r.value < |table| && table[r.value] == c
  {
    if |table| == 0 then None
    else if table[0] == c then Some(0)
    else match Position(table[1..], c)
      case None => None
      case Some(i) => Some(i + 1)
  }

  /** `position` finds the first occurrence: no earlier entry holds `c`. */
  lemma {:induction false} PositionFirst(table: string, c: char, j: nat)
    requires Position(table, c).Some? && j < Position(table, c).value
    ensures table[j] != c
  {
    if j > 0 {
      PositionFirst(table[1..], c, j - 1);
    }
  }

  /** In an alphabet without repeats, the position of digit d's character is d. */
  lemma PositionOfDigit(table: string, d: nat)
    requires Distinct(table) && d < |table|
    ensures Position(table, table[d]) == Some(d)
  {
  }

  // ---------------------------------------------------------------------
  // Text <-> digit values
  // ---------------------------------------------------------------------

  /** Every character of `s` is a digit of `table`. */
  predicate AllDigits(s: string, table: string)
  {
    forall i :: 0 <= i < |s| ==> s[i] in table
  }

  /** The digit value of each character of `s`: its position in `table`. */
  function Values(s: string, table: string): (ds: seq<nat>)
    requires AllDigits(s, table)
    ensures |ds| == |s|
    ensures forall i :: 0 <= i < |s| ==> ds[i] < |table|
  {
    seq(|s|, i => if 0 <= i < |s| && s[i] in table then Position(table, s[i]).value else 0)
  }

  /** The characters of the digit values `ds` in `table`. */
  function Render(ds: seq<nat>, table: string): (s: string)
    requires forall i :: 0 <= i < |ds| ==> ds[i] < |table|
    ensures |s| == |ds|
    ensures AllDigits(s, table)
  {
    seq(|ds|, i requires 0 <= i < |ds| => table[ds[i]])
  }

  /** Character k of a rendering is the table entry of digit k. */
  lemma RenderAt(ds: seq<nat>, table: string, k: nat)
    requires forall i :: 0 <= i < |ds| ==> ds[i] < |table|
    requires k < |ds|
    ensures Render(ds, table)[k] == table[ds[k]]
  {
  }

  /** Character k of a rendered fixed-width numeral, counted from the most significant. */
  lemma RenderDigitsAt(n: nat, base: nat, len: nat, k: nat, table: string)
    requires 2 <= base <= |table| && k < len
    ensures Render(Digits(n, base, len), table)[k] == table[(n / Pow(base, len - 1 - k)) % base]
  {
    DigitsAt(n, base, len, k);
    RenderAt(Digits(n, base, len), table, k);
  }

  /** Rendering digit values and reading them back gives the same values. */
  lemma ValuesRender(ds: seq<nat>, table: string)
    requires Distinct(table)
    requires forall i :: 0 <= i < |ds| ==> ds[i] < |table|
    ensures Values(Render(ds, table), table) == ds
  {
    var s := Render(ds, table);
    forall i | 0 <= i < |ds|
      ensures Values(s, table)[i] == ds[i]
    {
      PositionOfDigit(table, ds[i]);
    }
  }

  /** Reading text as digit values and rendering those values gives the text back. */
  lemma RenderValues(s: string, table: string)
    requires AllDigits(s, table)
    ensures Render(Values(s, table), table) == s
  {
    var ds := Values(s, table);
    forall i | 0 <= i < |s|
      ensures Render(ds, table)[i] == s[i]
    {
      RenderAt(ds, table, i);
    }
  }

  /** The values of a prefix one character longer. */
  lemma ValuesSnoc(s: string, table: string, i: nat)
    requires i < |s| && AllDigits(s[..i + 1], table)
    ensures AllDigits(s[..i], table)
    ensures Values(s[..i + 1], table) == Values(s[..i], table) + [Position(table, s[i]).value]
  {
    assert forall j :: 0 <= j < i ==> s[..i][j] == s[..i + 1][j];
  }

  // ---------------------------------------------------------------------
  // from_base16 and from_base62
  // ---------------------------------------------------------------------

  /**
   * What `from_base16` and `from_base62` compute: an error when some
   * character is outside the alphabet, otherwise the value of the numeral
   * (digit value = position in the alphabet, base = alphabet size) reduced
   * modulo 2^128, because the accumulator is an unchecked u128.
   */
  function ParseNumeral(s: string, table: string): Result<SpotifyId, SpotifyIdError>
  {
    if AllDigits(s, table) then
      Ok(SpotifyId(Horner(Values(s, table), |table|) % U128_MODULUS))
    else
      Err(SpotifyIdError)
  }

  /** Reading one more character multiplies the value by the base and adds its digit. */
  lemma HornerValuesSnoc(s: string, table: string, i: nat)
    requires i < |s| && AllDigits(s[..i + 1], table)
    ensures AllDigits(s[..i], table)
    ensures Horner(Values(s[..i + 1], table), |table|)
         == Horner(Values(s[..i], table), |table|) * |table| + Position(table, s[i]).value
  {
    ValuesSnoc(s, table, i);
    HornerSnoc(Values(s[..i], table), Position(table, s[i]).value, |table|);
  }

  /** One wrapping step of the parsers' accumulator, for any previous value `prev` it holds modulo 2^128. */
  lemma AccumulateU128(prev: nat, n: nat, b: nat, d: nat, next: nat)
    requires n == prev % U128_MODULUS && next == prev * b + d
    ensures ((n * b) % U128_MODULUS + d) % U128_MODULUS == next % U128_MODULUS
  {
    AccumulateStep(prev, n, b, d, next, U128_MODULUS);
  }

  /**
   * The loop shared by `from_base16` and `from_base62`: look each character
   * up in the alphabet, fail on the first one that is missing, and fold the
   * digit into a wrapping u128 accumulator.
   */
  method ParseWith(id: string, table: string) returns (r: Result<SpotifyId, SpotifyIdError>)
    ensures r == ParseNumeral(id, table)
  {
    var n: u128 := 0;
    for i := 0 to |id|
      invariant AllDigits(id[..i], table)
      invariant n == Horner(Values(id[..i], table), |table|) % U128_MODULUS
    {
      var d: nat;
      match Position(table, id[i]) {
        case None =>
          assert !AllDigits(id, table);
          return Err(SpotifyIdError);
        case Some(x) =>
          d := x;
      }
      assert AllDigits(id[..i + 1], table);
      ghost var prev := Horner(Values(id[..i], table), |table|);
      ghost var next := Horner(Values(id[..i + 1], table), |table|);
      assert next == prev * |table| + d by {
        HornerValuesSnoc(id, table, i);
      }
      AccumulateU128(prev, n, |table|, d, next);
      n := (n * |table|) % U128_MODULUS;
      n := (n + d) % U128_MODULUS;
    }
    assert id[..|id|] == id;
    return Ok(SpotifyId(n));
  }


  /** `SpotifyId::from_base16`. */
  method FromBase16(id: string) returns (r: Result<SpotifyId, SpotifyIdError>)
    ensures r == ParseNumeral(id, BASE16_DIGITS)
  {
    r := ParseWith(id, BASE16_DIGITS);
  }

  /** `SpotifyId::from_base62`. */
  method FromBase62(id: string) returns (r: Result<SpotifyId, SpotifyIdError>)
    ensures r == ParseNumeral(id, BASE62_DIGITS)
  {
    r := ParseWith(id, BASE62_DIGITS);
  }

  /** A parser rejects exactly the texts with a character outside its alphabet. */
  lemma ParseRejectsIff(s: string, table: string)
    ensures ParseNumeral(s, table).Err? <==> exists i :: 0 <= i < |s| && s[i] !in table
  {
  }

  /** The empty text parses to the zero identifier. */
  lemma ParseEmpty(table: string)
    ensures ParseNumeral("", table) == Ok(SpotifyId(0))
  {
  }

  /**
   * Inputs longer than the canonical width wrap silently instead of being
   * rejected: a digit in front of 32 base-16 digits is lost.
   */
  lemma Base16Overflow(s: string, c: char)
    requires |s| == 32 && AllDigits(s, BASE16_DIGITS) && c in BASE16_DIGITS
    ensures ParseNumeral([c] + s, BASE16_DIGITS) == ParseNumeral(s, BASE16_DIGITS)
  {
    Widths();
    PrependOverflow(s, c, BASE16_DIGITS);
  }

  /** A digit in front of a numeral whose weight is 2^128 does not change the parsed value. */
  lemma PrependOverflow(s: string, c: char, table: string)
    requires AllDigits(s, table) && c in table && Pow(|table|, |s|) == U128_MODULUS
    ensures ParseNumeral([c] + s, table) == ParseNumeral(s, table)
  {
    var d := Position(table, c).value;
    var ds := Values(s, table);
    var h := Horner(ds, |table|);
    ValuesPrepend(s, c, table);
    HornerPrepend(ds, d, |table|);
    assert Horner(Values([c] + s, table), |table|) == h + d * U128_MODULUS;
    ModAddMultiple(h, d, U128_MODULUS);
  }

  /** The values of a text with one more character in front. */
  lemma ValuesPrepend(s: string, c: char, table: string)
    requires AllDigits(s, table) && c in table
    ensures AllDigits([c] + s, table)
    ensures Values([c] + s, table) == [Position(table, c).value] + Values(s, table)
  {
    var t := [c] + s;
    assert forall i :: 1 <= i < |t| ==> t[i] == s[i - 1];
  }

  /** Putting a digit in front adds its weight. */
  lemma {:induction false} HornerPrepend(ds: seq<nat>, d: nat, base: nat)
    ensures Horner([d] + ds, base) == Horner(ds, base) + d * Pow(base, |ds|)
  {
    if |ds| > 0 {
      var init, last := ds[..|ds| - 1], ds[|ds| - 1];
      var h, p := Horner(init, base), Pow(base, |init|);
      assert ds == init + [last];
      assert [d] + ds == ([d] + init) + [last];
      HornerPrepend(init, d, base);
      HornerSnoc([d] + init, last, base);
      HornerSnoc(init, last, base);
      PrependStep(h, d, p, base, last);
      assert Pow(base, |ds|) == base * p;
    } else {
      assert [d] + ds == [] + [d];
      HornerSnoc([], d, base);
    }
  }

  /** The arithmetic of one HornerPrepend step. */
  lemma PrependStep(h: nat, d: nat, p: nat, base: nat, last: nat)
    ensures (h + d * p) * base + last == (h * base + last) + d * (base * p)
  {
  }

  // ---------------------------------------------------------------------
  // to_base62
  // ---------------------------------------------------------------------

  /** The canonical base-62 text: 22 digits, most significant first. */
  function Base62Text(id: SpotifyId): (s: string)
    ensures |s| == 22
  {
    Render(Digits(id.n, 62, 22), BASE62_DIGITS)
  }

  /**
   * The fixed widths: 32 base-16 digits and 16 bytes hold exactly the
   * 128-bit values, and 22 base-62 digits hold all of them.
   */
  lemma Widths()
    ensures Pow(16, 32) == U128_MODULUS
    ensures Pow(256, 16) == U128_MODULUS
    ensures U128_MODULUS < Pow(62, 22)
  {
    Pow16Width();
    Pow256Width();
    Pow62Width();
  }

  lemma Pow16Width()
    ensures Pow(16, 15) == 0x1000_0000_0000_0000
    ensures Pow(16, 16) == 0x1_0000_0000_0000_0000
    ensures Pow(16, 32) == U128_MODULUS
  {
    PowAdd(16, 8, 7);
    PowAdd(16, 8, 8);
    PowAdd(16, 16, 16);
    assert Pow(16, 7) == 0x1000_0000;
    assert Pow(16, 8) == 0x1_0000_0000;
  }

  lemma Pow256Width()
    ensures Pow(256, 16) == U128_MODULUS
  {
    PowAdd(256, 8, 8);
    assert Pow(256, 8) == 0x1_0000_0000_0000_0000;
  }

  lemma Pow62Width()
    ensures U128_MODULUS < Pow(62, 22)
  {
    PowAdd(62, 11, 11);
    assert Pow(62, 11) == 52036560683837093888;
  }

  /**
   * The loop of `to_base62`: fill a buffer of `width` characters from the
   * end backward with the table entry of `n % base`, dividing `n` by the
   * base after each character.
   */
  method WriteDigits(value: nat, base: nat, width: nat, table: string) returns (text: string)
    requires 2 <= base <= |table|
    ensures text == Render(Digits(value, base, width), table)
  {
    ghost var want := Render(Digits(value, base, width), table);
    var n: nat := value;
    var data := new char[width](_ => '0');
    for i := 0 to width
      invariant n == value / Pow(base, i)
      invariant forall j :: width - i <= j < width ==> data[j] == want[j]
    {
      RenderDigitsAt(value, base, width, width - 1 - i, table);
      DivPowSucc(value, base, i);
      data[width - 1 - i] := table[n % base];
      n := n / base;
    }
    text := data[..];
  }

  /** `SpotifyId::to_base62`: 22 base-62 digits, most significant first. */
  method ToBase62(id: SpotifyId) returns (text: string)
    ensures text == Base62Text(id)
  {
    text := WriteDigits(id.n, 62, 22, BASE62_DIGITS);
  }

  /** Base-62 text round-trips for every identifier. */
  lemma {:induction false} Base62RoundTrip(id: SpotifyId)
    ensures ParseNumeral(Base62Text(id), BASE62_DIGITS) == Ok(id)
  {
    Base62Distinct();
    var ds := Digits(id.n, 62, 22);
    ValuesRender(ds, BASE62_DIGITS);
    HornerDigits(id.n, 62, 22);
    Widths();
    DivModUnique(id.n, Pow(62, 22), 0, id.n);
    DivModUnique(id.n, U128_MODULUS, 0, id.n);
  }

  /**
   * The other direction: a 22-digit base-62 text is the text of the
   * identifier it parses to exactly when its value fits in 128 bits.
   * Wider values wrap on parsing, so they are not canonical.
   */
  lemma Base62Canonical(s: string)
    requires |s| == 22 && AllDigits(s, BASE62_DIGITS)
    ensures ParseNumeral(s, BASE62_DIGITS).Ok?
    ensures Base62Text(ParseNumeral(s, BASE62_DIGITS).value) == s
        <==> Horner(Values(s, BASE62_DIGITS), 62) < U128_MODULUS
  {
    Base62Table();
    var ds := Values(s, BASE62_DIGITS);
    var h := Horner(ds, 62);
    var id := ParseNumeral(s, BASE62_DIGITS).value;
    if h < U128_MODULUS {
      DivModUnique(h, U128_MODULUS, 0, h);
      DigitsHorner(ds, 62);
      RenderValues(s, BASE62_DIGITS);
    }
    if Base62Text(id) == s {
      Base62Distinct();
      ValuesRender(Digits(id.n, 62, 22), BASE62_DIGITS);
      HornerDigits(id.n, 62, 22);
      Widths();
      DivModUnique(id.n, Pow(62, 22), 0, id.n);
    }
  }

  /** Base-62 text is most significant digit first: character k is digit 21 - k. */
  lemma Base62TextAt(id: SpotifyId, k: nat)
    requires k < 22
    ensures Base62Text(id)[k] == BASE62_DIGITS[(id.n / Pow(62, 21 - k)) % 62]
  {
    var text := Base62Text(id);
    var d := (id.n / Pow(62, 21 - k)) % 62;
    RenderDigitsAt(id.n, 62, 22, k, BASE62_DIGITS);
    assert text[k] == BASE62_DIGITS[d];
  }

  // ---------------------------------------------------------------------
  // to_base16, as written and as intended
  // ---------------------------------------------------------------------

  /**
   * The table index `n.wrapping_shr(4 * i) as usize`: the value shifted
   * right by 4i bits (division by 16^i; 4i < 128, so the shift amount is
   * not wrapped), truncated to 64 bits, and NOT masked to a nibble.
   */
  function UnmaskedIndex(n: u128, i: nat): nat
    requires i < 32
  {
    (n / Pow(16, i)) % USIZE_MODULUS
  }

  /** Every index of the as-written loop is inside the 16-entry table exactly when the value is below 16. */
  lemma UnmaskedInBounds(n: u128)
    ensures (forall i :: 0 <= i < 32 ==> UnmaskedIndex(n, i) < 16) <==> n < 16
  {
    if n < 16 {
      forall i | 0 <= i < 32
        ensures UnmaskedIndex(n, i) < 16
      {
        if i > 0 {
          assert Pow(16, i) == 16 * Pow(16, i - 1);
          DivModUnique(n, Pow(16, i), 0, n);
        }
      }
    } else {
      assert Pow(16, 0) == 1;
      assert Pow(16, 15) == 0x1000_0000_0000_0000;
      assert Pow(16, 16) == 0x1_0000_0000_0000_0000;
      if n % USIZE_MODULUS >= 16 {
        assert UnmaskedIndex(n, 0) >= 16;
      } else if n / USIZE_MODULUS >= 16 {
        assert UnmaskedIndex(n, 16) >= 16;
      } else {
        assert UnmaskedIndex(n, 15) >= 16;
      }
    }
  }

  /** The indices of the as-written loop for a value below 16: the value itself, then zeros. */
  lemma UnmaskedIndexSmall(n: u128, i: nat)
    requires n < 16 && i < 32
    ensures UnmaskedIndex(n, i) == if i == 0 then n else 0
  {
    if i > 0 {
      assert Pow(16, i) == 16 * Pow(16, i - 1);
      DivModUnique(n, Pow(16, i), 0, n);
    }
  }

  /**
   * `SpotifyId::to_base16` as written. The index into the 16-entry table is
   * not masked to a nibble, so the array access panics (`None` here) for
   * every value of 16 or more; below 16 the text is 31 zeros and one digit.
   */
  method ToBase16(id: SpotifyId) returns (r: Option<string>)
    ensures r.Some? <==> id.n < 16
    ensures r.Some? ==> r.value == seq(31, _ => '0') + [BASE16_DIGITS[id.n]]
  {
    var data := new char[32](_ => '\0');
    for i := 0 to 32
      invariant forall j :: 0 <= j < i ==> UnmaskedIndex(id.n, j) < 16
      invariant forall j :: 0 <= j < i ==> data[31 - j] == BASE16_DIGITS[UnmaskedIndex(id.n, j)]
    {
      var index := (id.n / Pow(16, i)) % USIZE_MODULUS;
      if index >= |BASE16_DIGITS| {
        UnmaskedInBounds(id.n);
        assert UnmaskedIndex(id.n, i) == index;
        return None;
      }
      data[31 - i] := BASE16_DIGITS[index];
    }
    UnmaskedText(id.n, data[..]);
    r := Some(data[..]);
  }

  /** What the as-written loop leaves in its buffer when no index panicked. */
  lemma UnmaskedText(n: u128, data: seq<char>)
    requires |data| == 32
    requires forall j :: 0 <= j < 32 ==> UnmaskedIndex(n, j) < 16
    requires forall j :: 0 <= j < 32 ==> data[31 - j] == BASE16_DIGITS[UnmaskedIndex(n, j)]
    ensures n < 16 && data == seq(31, _ => '0') + [BASE16_DIGITS[n]]
  {
    UnmaskedInBounds(n);
    forall k | 0 <= k < 32
      ensures data[k] == (seq(31, _ => '0') + [BASE16_DIGITS[n]])[k]
    {
      assert data[k] == BASE16_DIGITS[UnmaskedIndex(n, 31 - k)];
      UnmaskedIndexSmall(n, 31 - k);
    }
  }

  /** The evidently intended base-16 text: 32 nibbles, most significant first. */
  function Base16Text(id: SpotifyId): (s: string)
    ensures |s| == 32
  {
    Render(Digits(id.n, 16, 32), BASE16_DIGITS)
  }

  /** `to_base16` with the nibble mask `& 0xf` on the table index. */
  method ToBase16Masked(id: SpotifyId) returns (text: string)
    ensures text == Base16Text(id)
  {
    text := WriteDigits(id.n, 16, 32, BASE16_DIGITS);
  }

  /** The masked base-16 text round-trips for every identifier. */
  lemma {:induction false} Base16RoundTrip(id: SpotifyId)
    ensures ParseNumeral(Base16Text(id), BASE16_DIGITS) == Ok(id)
  {
    Base16Distinct();
    var ds := Digits(id.n, 16, 32);
    ValuesRender(ds, BASE16_DIGITS);
    HornerDigits(id.n, 16, 32);
    Widths();
    DivModUnique(id.n, U128_MODULUS, 0, id.n);
  }

  /** The other direction: every 32-digit base-16 text is the text of the identifier it parses to. */
  lemma Base16Canonical(s: string)
    requires |s| == 32 && AllDigits(s, BASE16_DIGITS)
    ensures ParseNumeral(s, BASE16_DIGITS).Ok?
    ensures Base16Text(ParseNumeral(s, BASE16_DIGITS).value) == s
  {
    Base16Table();
    var ds := Values(s, BASE16_DIGITS);
    var h := Horner(ds, 16);
    HornerBound(ds, 16);
    Widths();
    DivModUnique(h, U128_MODULUS, 0, h);
    DigitsHorner(ds, 16);
    RenderValues(s, BASE16_DIGITS);
  }

  /**
   * Where the as-written `to_base16` does not panic it agrees with the
   * intended text, so `from_base16` inverts it.
   */
  lemma ToBase16AgreesBelow16(id: SpotifyId)
    requires id.n < 16
    ensures seq(31, _ => '0') + [BASE16_DIGITS[id.n]] == Base16Text(id)
    ensures ParseNumeral(seq(31, _ => '0') + [BASE16_DIGITS[id.n]], BASE16_DIGITS) == Ok(id)
  {
    DigitsSingle(id.n, 16, 32);
    var zeros: seq<nat> := seq(31, _ => 0);
    assert Base16Text(id) == Render(zeros + [id.n], BASE16_DIGITS);
    Base16RoundTrip(id);
  }

  // ---------------------------------------------------------------------
  // Raw bytes
  // ---------------------------------------------------------------------

  /**
   * `SpotifyId::to_raw`: the value written as a big-endian u128 into a
   * 16-byte array.
   */
  function ToRaw(id: SpotifyId): (raw: seq<u8>)
    ensures |raw| == 16
  {
    Digits(id.n, 256, 16)
  }

  /** Byte k of the raw form is the k-th most significant byte of the value. */
  lemma ToRawAt(id: SpotifyId, k: nat)
    requires k < 16
    ensures ToRaw(id)[k] == (id.n / Pow(256, 15 - k)) % 256
  {
    DigitsAt(id.n, 256, 16, k);
  }

  /**
   * `SpotifyId::from_raw`: an error unless the slice is exactly 16 bytes,
   * otherwise the big-endian value of the bytes.
   */
  function FromRaw(data: seq<u8>): (r: Result<SpotifyId, SpotifyIdError>)
    ensures r.Ok? <==> |data| == 16
    ensures r.Ok? ==> ToRaw(r.value) == data
  {
    if |data| != 16 then
      Err(SpotifyIdError)
    else
      HornerBound(data, 256);
      Widths();
      DigitsHorner(data, 256);
      Ok(SpotifyId(Horner(data, 256)))
  }

  /** Raw bytes round-trip for every identifier. */
  lemma RawRoundTrip(id: SpotifyId)
    ensures FromRaw(ToRaw(id)) == Ok(id)
  {
    var r := FromRaw(ToRaw(id));
    Widths();
    DigitsInjective(r.value.n, id.n, 256, 16);
  }

  // ---------------------------------------------------------------------
  // FileId
  // ---------------------------------------------------------------------

  /** `format!("{:02x}", b)`: two lowercase hex digits, high nibble first. */
  function HexByte(b: u8): (s: string)
    ensures |s| == 2
  {
    [BASE16_DIGITS[b / 16], BASE16_DIGITS[b % 16]]
  }

  /** The two hex digits of a byte read back as the byte. */
  lemma HexByteValue(b: u8)
    ensures ParseNumeral(HexByte(b), BASE16_DIGITS) == Ok(SpotifyId(b))
  {
    Base16Distinct();
    ByteDigitsValue(b, BASE16_DIGITS);
  }

  /** Two base-16 digits of a byte, in any alphabet without repeats, read back as the byte. */
  lemma ByteDigitsValue(b: u8, table: string)
    requires Distinct(table) && |table| == 16
    ensures ParseNumeral([table[b / 16], table[b % 16]], table) == Ok(SpotifyId(b))
  {
    var hi, lo := b / 16, b % 16;
    var ds: seq<nat> := [hi, lo];
    assert [table[hi], table[lo]] == Render(ds, table);
    ValuesRender(ds, table);
    HornerSnoc([], hi, 16);
    HornerSnoc([hi], lo, 16);
    assert [] + [hi] == [hi] && [hi] + [lo] == ds;
    assert b == hi * 16 + lo;
    DivModUnique(b, U128_MODULUS, 0, b);
  }

  /** The concatenation of the two-digit hex of every byte, in order. */
  function Hex(bs: seq<u8>): (s: string)
    ensures |s| == 2 * |bs|
    ensures forall k :: 0 <= k < |bs| ==>
      s[2 * k] == BASE16_DIGITS[bs[k] / 16] && s[2 * k + 1] == BASE16_DIGITS[bs[k] % 16]
  {
    if |bs| == 0 then "" else HexByte(bs[0]) + Hex(bs[1..])
  }

  /** `FileId::to_base16`. */
  function FileIdToBase16(f: FileId): (s: string)
    ensures |s| == 40 && AllDigits(s, BASE16_DIGITS)
  {
    HexDigits(f.bytes);
    Hex(f.bytes)
  }

  /** Hex text consists of base-16 digits only. */
  lemma {:induction false} HexDigits(bs: seq<u8>)
    ensures AllDigits(Hex(bs), BASE16_DIGITS)
  {
    if |bs| > 0 {
      var h := HexByte(bs[0]);
      HexDigits(bs[1..]);
      assert h[0] == BASE16_DIGITS[bs[0] / 16];
      assert h[1] == BASE16_DIGITS[bs[0] % 16];
      AllDigitsConcat(h, Hex(bs[1..]), BASE16_DIGITS);
    }
  }

  /** Text made of two digit strings is a digit string. */
  lemma AllDigitsConcat(a: string, b: string, table: string)
    requires AllDigits(a, table) && AllDigits(b, table)
    ensures AllDigits(a + b, table)
  {
    forall i | 0 <= i < |a + b|
      ensures (a + b)[i] in table
    {
      if i >= |a| {
        assert (a + b)[i] == b[i - |a|];
      }
    }
  }

  /** Distinct file ids have distinct hex text. */
  lemma FileIdHexInjective(f: FileId, g: FileId)
    requires FileIdToBase16(f) == FileIdToBase16(g)
    ensures f == g
  {
    Base16Distinct();
    forall k | 0 <= k < 20
      ensures f.bytes[k] == g.bytes[k]
    {
      var a, b := f.bytes[k], g.bytes[k];
      assert Hex(f.bytes)[2 * k] == Hex(g.bytes)[2 * k];
      assert Hex(f.bytes)[2 * k + 1] == Hex(g.bytes)[2 * k + 1];
      DigitInjective(BASE16_DIGITS, a / 16, b / 16);
      DigitInjective(BASE16_DIGITS, a % 16, b % 16);
    }
    assert f.bytes == g.bytes;
  }

  datatype Ordering = Less | Equal | Greater
  {
    function Flip(): Ordering
    {
      match this
      case Less => Greater
      case Equal => Equal
      case Greater => Less
    }
  }

  /**
   * Lexicographic comparison of byte sequences, as Rust orders slices:
   * Equal exactly for equal sequences, and a proper prefix is Less.
   */
  function CompareBytes(a: seq<u8>, b: seq<u8>): (r: Ordering)
    ensures r == Equal <==> a == b
    ensures |a| < |b| && a == b[..|a|] ==> r == Less
  {
    if |a| == 0 && |b| == 0 then Equal
    else if |a| == 0 then Less
    else if |b| == 0 then Greater
    else if a[0] < b[0] then Less
    else if a[0] > b[0] then Greater
    else CompareBytes(a[1..], b[1..])
  }

  /** The derived `Ord::cmp` of `FileId`: compare the 20-byte arrays. */
  function Compare(f: FileId, g: FileId): (r: Ordering)
    ensures r == Equal <==> f == g
  {
    CompareBytes(f.bytes, g.bytes)
  }

  /** Byte a[k] is the first place where the sequences differ, and it is smaller. */
  ghost predicate LessAt(a: seq<u8>, b: seq<u8>, k: int)
  {
    0 <= k < |a| && k < |b| && a[..k] == b[..k] && a[k] < b[k]
  }

  /** On equal lengths, comparison says Equal exactly for equal sequences and Less exactly at a first smaller byte. */
  lemma {:induction false} CompareBytesMeaning(a: seq<u8>, b: seq<u8>)
    requires |a| == |b|
    ensures CompareBytes(a, b) == Equal <==> a == b
    ensures CompareBytes(a, b) == Less <==> exists k :: LessAt(a, b, k)
    ensures CompareBytes(a, b) == CompareBytes(b, a).Flip()
  {
    if |a| > 0 {
      CompareBytesMeaning(a[1..], b[1..]);
      if a[0] == b[0] {
        if CompareBytes(a, b) == Less {
          var k :| LessAt(a[1..], b[1..], k);
          assert a[..k + 1] == [a[0]] + a[1..][..k];
          assert b[..k + 1] == [b[0]] + b[1..][..k];
          assert LessAt(a, b, k + 1);
        }
        if k :| LessAt(a, b, k) {
          assert k > 0;
          assert a[1..][..k - 1] == a[..k][1..];
          assert b[1..][..k - 1] == b[..k][1..];
          assert LessAt(a[1..], b[1..], k - 1);
        }
        if a[1..] == b[1..] {
          assert a == [a[0]] + a[1..];
          assert b == [b[0]] + b[1..];
        }
      } else if a[0] < b[0] {
        assert LessAt(a, b, 0);
      }
    }
  }

  /** `FileId` equality is byte-wise and its order is lexicographic over the 20 bytes. */
  lemma CompareLexicographic(f: FileId, g: FileId)
    ensures Compare(f, g) == Equal <==> f == g
    ensures Compare(f, g) == Less <==> exists k :: LessAt(f.bytes, g.bytes, k)
    ensures Compare(f, g) == Compare(g, f).Flip()
  {
    CompareBytesMeaning(f.bytes, g.bytes);
  }

  /** The `FileId` order is transitive. */
  lemma {:induction false} CompareBytesTransitive(a: seq<u8>, b: seq<u8>, c: seq<u8>)
    requires CompareBytes(a, b) == Less && CompareBytes(b, c) == Less
    ensures CompareBytes(a, c) == Less
  {
    if |a| > 0 && |b| > 0 && |c| > 0 && a[0] == b[0] == c[0] {
      CompareBytesTransitive(a[1..], b[1..], c[1..]);
    }
  }
}
