/**
 * `serialize`: the conversion of a response value into one JSON can carry,
 * turning every bigint into its decimal string and every Date into its ISO
 * string, through arrays and plain objects at any depth.
 */
module Serialize {
  import opened Wrappers

  /** The values the conversion distinguishes. An object is its own entries, in order, with distinct keys. */
  datatype JsValue =
    | Null
    | Undefined
    | Bool(b: bool)
    | Num(n: int)
    | Str(s: string)
    | BigInt(i: int)
    | Date(time: int)
    | Array(items: seq<JsValue>)
    | Object(entries: seq<(string, JsValue)>)

  // ---------------------------------------------------------------------------
  // Decimal strings of big integers
  // ---------------------------------------------------------------------------

  /** The character of a decimal digit. */
  function DigitChar(d: nat): (c: char)
    requires d < 10
    ensures '0' <= c <= '9'
  {
    "0123456789"[d]
  }

  /** The value of a decimal digit character. */
  function DigitValue(c: char): (d: nat)
    requires '0' <= c <= '9'
    ensures d < 10
  {
    (c as int - '0' as int) as nat
  }

  /** A string of decimal digits only. */
  predicate AllDigits(s: string)
  {
    forall k :: 0 <= k < |s| ==> '0' <= s[k] <= '9'
  }

  /** The digits of n, most significant first, without leading zeros. */
  function Digits(n: nat): (r: string)
    ensures |r| > 0 && AllDigits(r)
    ensures r[0] == '0' ==> n == 0
  {
    if n < 10 then [DigitChar(n)] else Digits(n / 10) + [DigitChar(n % 10)]
  }

  /** The number a string of decimal digits denotes. */
  function ParseDigits(s: string): nat
    requires AllDigits(s)
  {
    if |s| == 0 then 0 else ParseDigits(s[..|s| - 1]) * 10 + DigitValue(s[|s| - 1])
  }

  /** `bigint.toString()`: the decimal string, with a minus sign for a negative value. */
  function DecimalString(i: int): (r: string)
    ensures i >= 0 ==> r == Digits(i)
    ensures i < 0 ==> r == "-" + Digits(-i)
  {
    if i < 0 then "-" + Digits(-i) else Digits(i)
  }

  /** Reading a decimal string back: an optional minus sign, then digits. */
  function ParseDecimal(s: string): (r: Option<int>)
  {
    if |s| > 0 && s[0] == '-' then
      if |s| > 1 && AllDigits(s[1..]) then Some(0 - ParseDigits(s[1..])) else None
    else if |s| > 0 && AllDigits(s) then Some(ParseDigits(s))
    else None
  }

  /** The digits of n read back as n. */
  lemma {:induction false} DigitsRoundTrip(n: nat)
    ensures ParseDigits(Digits(n)) == n
  {
    if n >= 10 {
      DigitsRoundTrip(n / 10);
      var d := Digits(n / 10) + [DigitChar(n % 10)];
      assert d[..|d| - 1] == Digits(n / 10);
    }
  }

  /** The decimal string of a big integer reads back as that integer. */
  lemma DecimalRoundTrip(i: int)
    ensures ParseDecimal(DecimalString(i)) == Some(i)
  {
    var s := DecimalString(i);
    if i < 0 {
      var d := Digits(-i);
      assert s == "-" + d;
      assert s[0] == '-' && |s| > 1;
      assert s[1..] == d;
      DigitsRoundTrip(-i);
      assert ParseDecimal(s) == Some(0 - ParseDigits(d));
    } else {
      assert s == Digits(i);
      assert '0' <= s[0] <= '9';
      DigitsRoundTrip(i);
    }
  }

  /** Different big integers have different decimal strings. */
  lemma DecimalInjective(i: int, j: int)
    requires DecimalString(i) == DecimalString(j)
    ensures i == j
  {
    DecimalRoundTrip(i);
    DecimalRoundTrip(j);
  }

  // ---------------------------------------------------------------------------
  // The conversion
  // ---------------------------------------------------------------------------

  /** The keys of an object's entries, in order. */
  function EntryKeys(entries: seq<(string, JsValue)>): (r: seq<string>)
    ensures |r| == |entries|
    ensures forall k :: 0 <= k < |r| ==> r[k] == entries[k].0
  {
    if |entries| == 0 then [] else EntryKeys(entries[..|entries| - 1]) + [entries[|entries| - 1].0]
  }

  /**
   * `serialize(v)`, with `iso` the `toISOString` of a Date's time value:
   * null and undefined stay, a bigint becomes its decimal string, a Date its
   * ISO string, an array is converted item by item and an object value by
   * value under the same keys, and any other value stays.
   */
  function Serialize(v: JsValue, iso: int -> string): (r: JsValue)
    ensures match v
      case BigInt(i) => r == Str(DecimalString(i))
      case Date(time) => r == Str(iso(time))
      case Array(items) =>
        && r.Array? && |r.items| == |items|
        && forall k :: 0 <= k < |items| ==> r.items[k] == Serialize(items[k], iso)
      case Object(entries) =>
        && r.Object? && EntryKeys(r.entries) == EntryKeys(entries)
        && forall k :: 0 <= k < |entries| ==> r.entries[k] == (entries[k].0, Serialize(entries[k].1, iso))
      case _ => r == v
    decreases v
  {
    match v
    case BigInt(i) => Str(DecimalString(i))
    case Date(t) => Str(iso(t))
    case Array(items) =>
      Array(seq(|items|, k requires 0 <= k < |items| => Serialize(items[k], iso)))
    case Object(entries) =>
      var r := seq(|entries|, k requires 0 <= k < |entries| =>
        (assert entries[k] in entries; (entries[k].0, Serialize(entries[k].1, iso))));
      assert EntryKeys(r) == EntryKeys(entries);
      Object(r)
    case _ => v
  }

  /** A value with no bigint and no Date anywhere in it. */
  predicate Plain(v: JsValue)
    decreases v
  {
    match v
    case BigInt(_) => false
    case Date(_) => false
    case Array(items) => forall k :: 0 <= k < |items| ==> Plain(items[k])
    case Object(entries) => forall k :: 0 <= k < |entries| ==> Plain(entries[k].1)
    case _ => true
  }

  /** The output has no bigint and no Date left in it, at any depth. */
  lemma {:induction false} SerializeIsPlain(v: JsValue, iso: int -> string)
    ensures Plain(Serialize(v, iso))
    decreases v
  {
    match v
    case Array(items) =>
      forall k | 0 <= k < |items|
        ensures Plain(Serialize(v, iso).items[k])
      {
        SerializeIsPlain(items[k], iso);
      }
    case Object(entries) =>
      forall k | 0 <= k < |entries|
        ensures Plain(Serialize(v, iso).entries[k].1)
      {
        assert entries[k] in entries;
        SerializeIsPlain(entries[k].1, iso);
      }
    case _ =>
  }

  /** A value with nothing to convert comes out as it went in. */
  lemma {:induction false} PlainUnchanged(v: JsValue, iso: int -> string)
    requires Plain(v)
    ensures Serialize(v, iso) == v
    decreases v
  {
    match v
    case Array(items) =>
      forall k | 0 <= k < |items|
        ensures Serialize(items[k], iso) == items[k]
      {
        PlainUnchanged(items[k], iso);
      }
      assert Serialize(v, iso).items == items;
    case Object(entries) =>
      forall k | 0 <= k < |entries|
        ensures Serialize(entries[k].1, iso) == entries[k].1
      {
        assert entries[k] in entries;
        PlainUnchanged(entries[k].1, iso);
      }
      assert Serialize(v, iso).entries == entries;
    case _ =>
  }

  /** Converting twice is converting once. */
  lemma SerializeIdempotent(v: JsValue, iso: int -> string)
    ensures Serialize(Serialize(v, iso), iso) == Serialize(v, iso)
  {
    SerializeIsPlain(v, iso);
    PlainUnchanged(Serialize(v, iso), iso);
  }
}
