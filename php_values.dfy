/**
 * The part of PHP's value model that the request handlers rely on: values as
 * json_decode($body, true), $_GET and $_POST deliver them, array lookup,
 * isset, empty, the string conversion that trim() applies to its argument,
 * trim itself, and the integer <-> decimal-string conversions behind
 * lastInsertId() and is_numeric().
 */
module PhpValues {

  datatype Option<+T> = None | Some(value: T)

  /** An array key; PHP normalises every key to an integer or a string. */
  datatype Key = IntKey(n: int) | StrKey(name: string)

  /** A PHP value. Floats and objects are not modelled. */
  datatype Value =
    | Null
    | Bool(b: bool)
    | Int(i: int)
    | Str(s: string)
    | Arr(entries: seq<Entry>)

  /**
   * One `key => value` pair of an ordered PHP array. The arrays that
   * json_decode and $_POST deliver never repeat a key (DistinctKeys); a
   * sequence of entries that did would not be a PHP array, and Lookup would
   * read its first entry.
   */
  datatype Entry = Entry(key: Key, val: Value)

  /** `$array[$key]`: the value stored under `key`, if there is one. */
  function Lookup(entries: seq<Entry>, key: Key): (r: Option<Value>)
    ensures r.Some? ==> Entry(key, r.value) in entries
    ensures r.None? ==> forall e :: e in entries ==> e.key != key
  {
    if entries == [] then None
    else if entries[0].key == key then Some(entries[0].val)
    else Lookup(entries[1..], key)
  }

  /** No key occurs twice: what every PHP array satisfies. */
  predicate DistinctKeys(entries: seq<Entry>)
  {
    forall i, j :: 0 <= i < j < |entries| ==> entries[i].key != entries[j].key
  }

  /** In an array without repeated keys, `$array[$key]` is the value of the one entry with that key. */
  lemma {:induction false} LookupFindsUniqueKey(entries: seq<Entry>, key: Key, v: Value)
    requires DistinctKeys(entries)
    requires Entry(key, v) in entries
    ensures Lookup(entries, key) == Some(v)
  {
    if entries[0] != Entry(key, v) {
      assert Entry(key, v) in entries[1..];
      var j :| 0 <= j < |entries[1..]| && entries[1..][j] == Entry(key, v);
      assert entries[j + 1].key == key;
      LookupFindsUniqueKey(entries[1..], key, v);
    }
  }

  /**
   * `isset($data['f'])` on a PHP array holds exactly when some entry with
   * key 'f' has a value other than null.
   */
  lemma IsSetFieldIff(data: Value, field: string)
    requires data.Arr? && DistinctKeys(data.entries)
    ensures IsSetField(data, field) <==> exists v :: v != Null && Entry(StrKey(field), v) in data.entries
  {
    forall v | v != Null && Entry(StrKey(field), v) in data.entries
      ensures IsSetField(data, field)
    {
      LookupFindsUniqueKey(data.entries, StrKey(field), v);
    }
  }

  /**
   * `isset($data[$field])` for a string field name: the key is present and
   * its value is not null. On a string, `isset($s['firstname'])` is false
   * (the offset is not numeric); on any other scalar it is false too.
   */
  predicate IsSetField(data: Value, field: string)
  {
    data.Arr? && Lookup(data.entries, StrKey(field)).Some?
    && Lookup(data.entries, StrKey(field)).value != Null
  }

  /** PHP's `empty()`. */
  predicate Empty(v: Value)
  {
    match v
    case Null => true
    case Bool(b) => !b
    case Int(i) => i == 0
    case Str(s) => s == "" || s == "0"
    case Arr(es) => es == []
  }

  /** `empty()` holds for exactly six values: null, false, 0, "", "0" and the empty array. */
  lemma EmptyValues(v: Value)
    ensures Empty(v) <==> v in {Null, Bool(false), Int(0), Str(""), Str("0"), Arr([])}
  {
  }

  /** `empty()` of a string: PHP counts "0" as empty as well as "". */
  predicate EmptyString(s: string)
  {
    s == "" || s == "0"
  }

  // ---------------------------------------------------------------------
  // Decimal digits

  predicate IsDigit(c: char)
  {
    '0' <= c <= '9'
  }

  predicate AllDigits(s: string)
  {
    forall i :: 0 <= i < |s| ==> IsDigit(s[i])
  }

  function DigitChar(d: int): (c: char)
    requires 0 <= d <= 9
    ensures IsDigit(c) && c as int - '0' as int == d
  {
    ('0' as int + d) as char
  }

  /** The decimal spelling of a natural number, without leading zeros. */
  function NatToString(n: nat): (r: string)
    ensures |r| >= 1 && AllDigits(r)
    ensures r[0] == '0' ==> n == 0
    decreases n
  {
    if n < 10 then [DigitChar(n)] else NatToString(n / 10) + [DigitChar(n % 10)]
  }

  /** PHP's integer-to-string conversion: an optional '-' and the decimal digits. */
  function IntToString(i: int): (r: string)
    ensures |r| >= 1 && (AllDigits(r) <==> i >= 0)
  {
    if i < 0 then
      var r := "-" + NatToString(-i);
      assert !IsDigit(r[0]);
      r
    else NatToString(i)
  }

  /** The number a string of decimal digits denotes. */
  function DigitsValue(s: string): nat
    requires AllDigits(s)
  {
    if s == [] then 0
    else 10 * DigitsValue(s[..|s| - 1]) + (s[|s| - 1] as int - '0' as int)
  }

  /**
   * `is_numeric()` restricted to integers: an optional sign followed by one
   * or more decimal digits.
   */
  predicate IsNumeric(s: string)
    ensures IsNumeric(s) ==> forall i :: 0 <= i < |s| ==> IsDigit(s[i]) || s[i] == '+' || s[i] == '-'
  {
    |s| > 0 &&
    if s[0] == '+' || s[0] == '-' then |s| > 1 && AllDigits(s[1..]) else AllDigits(s)
  }

  /** The integer a numeric string denotes, as MySQL compares it with an integer column. */
  function ParseInt(s: string): int
    requires IsNumeric(s)
  {
    if s[0] == '-' then -(DigitsValue(s[1..]) as int)
    else if s[0] == '+' then DigitsValue(s[1..])
    else DigitsValue(s)
  }

  lemma {:induction false} NatToStringRoundTrip(n: nat)
    ensures DigitsValue(NatToString(n)) == n
    decreases n
  {
    var r := NatToString(n);
    if n >= 10 {
      NatToStringRoundTrip(n / 10);
      assert r[..|r| - 1] == NatToString(n / 10);
    }
  }

  /** Spelling an integer and parsing it back gives the integer again. */
  lemma IntToStringRoundTrip(i: int)
    ensures IsNumeric(IntToString(i))
    ensures ParseInt(IntToString(i)) == i
  {
    if i < 0 {
      NatToStringRoundTrip(-i);
      assert IntToString(i)[1..] == NatToString(-i);
    } else {
      NatToStringRoundTrip(i);
    }
  }

  // ---------------------------------------------------------------------
  // String conversion and trim()

  /**
   * The string PHP passes to trim() when coercing its argument: strings as
   * they are, integers in decimal, true as "1", false and null as "". An
   * array cannot be coerced: trim() throws a TypeError (None).
   */
  function ToPhpString(v: Value): (r: Option<string>)
    ensures r.None? <==> v.Arr?
    ensures v.Str? ==> r == Some(v.s)
  {
    match v
    case Null => Some("")
    case Bool(b) => Some(if b then "1" else "")
    case Int(i) => Some(IntToString(i))
    case Str(s) => Some(s)
    case Arr(_) => None
  }

  /** The characters trim() strips by default: " \t\n\r\0\x0B". */
  predicate IsTrimChar(c: char)
  {
    c == ' ' || c == '\t' || c == '\n' || c == '\r' || c == '\U{0}' || c == '\U{B}'
  }

  predicate AllTrimChars(s: string)
  {
    forall i :: 0 <= i < |s| ==> IsTrimChar(s[i])
  }

  /** The number of trim characters at the start of `s`. */
  function LeadingTrim(s: string): (k: nat)
    ensures k <= |s|
    ensures AllTrimChars(s[..k])
    ensures k < |s| ==> !IsTrimChar(s[k])
  {
    if s == [] || !IsTrimChar(s[0]) then 0
    else
      var k := 1 + LeadingTrim(s[1..]);
      assert s[..k] == [s[0]] + s[1..][..k - 1];
      k
  }

  /** The number of trim characters at the end of `s`. */
  function TrailingTrim(s: string): (k: nat)
    ensures k <= |s|
    ensures AllTrimChars(s[|s| - k..])
    ensures k < |s| ==> !IsTrimChar(s[|s| - k - 1])
  {
    if s == [] || !IsTrimChar(s[|s| - 1]) then 0
    else
      var init := s[..|s| - 1];
      var j := TrailingTrim(init);
      assert s[|s| - (j + 1)..] == init[|init| - j..] + [s[|s| - 1]];
      assert j + 1 < |s| ==> s[|s| - (j + 1) - 1] == init[|init| - j - 1];
      j + 1
  }

  /**
   * PHP's trim(): `s` without its leading and trailing trim characters. It
   * is empty exactly when `s` consists of trim characters only.
   */
  function Trim(s: string): (r: string)
    ensures |r| <= |s|
    ensures r == [] <==> AllTrimChars(s)
    ensures r != [] ==> !IsTrimChar(r[0]) && !IsTrimChar(r[|r| - 1])
  {
    var a := LeadingTrim(s);
    var rest := s[a..];
    var b := TrailingTrim(rest);
    assert rest == [] ==> s == s[..a];
    rest[..|rest| - b]
  }

  /** trim() keeps a contiguous part of `s` and removes only trim characters around it. */
  lemma TrimTakesInfix(s: string)
    ensures exists a, b :: 0 <= a <= b <= |s| && Trim(s) == s[a..b] && AllTrimChars(s[..a]) && AllTrimChars(s[b..])
  {
    var a := LeadingTrim(s);
    var rest := s[a..];
    var b := TrailingTrim(rest);
    var e := a + |rest| - b;
    assert Trim(s) == s[a..e];
    assert AllTrimChars(s[e..]) by {
      assert rest[|rest| - b..] == s[e..];
    }
  }
}
