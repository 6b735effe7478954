/** The untyped records the mock services store and return. The services never
    look at a record's schema: they copy records with object spread, compare
    `Id` fields with `===`, take `Math.max` over them and run `parseInt` on them.
    A record is therefore a map from field names to JavaScript values; an absent
    key is `undefined`. */
module Records {
  import opened Common
  import opened Text

  /** The JavaScript values a record field can hold. Numbers are integers; `NaN`
      is the one non-integer number the services can produce. */
  datatype Value = Num(n: int) | NaN | Str(s: string) | Bool(b: bool) | Null

  type Record = map<string, Value>

  /** `r[key]`: `None` stands for `undefined`. */
  function Field(r: Record, key: string): Option<Value>
  {
    if key in r then Some(r[key]) else None
  }

  /** Whether the record's `Id` field is `=== id`. */
  predicate HasId(r: Record, id: int)
  {
    Field(r, "Id") == Some(Num(id))
  }

  /** `{ ...base, ...updates }`: every field of `updates` wins, the rest of `base` stays. */
  function Merge(base: Record, updates: Record): (r: Record)
    ensures r.Keys == base.Keys + updates.Keys
    ensures forall k :: k in updates ==> r[k] == updates[k]
    ensures forall k :: k in base && k !in updates ==> r[k] == base[k]
  {
    base + updates
  }

  /** `String(v)` */
  function ToJsString(v: Option<Value>): string
  {
    match v
    case None => "undefined"
    case Some(Num(n)) => DecimalString(n)
    case Some(NaN) => "NaN"
    case Some(Str(s)) => s
    case Some(Bool(b)) => if b then "true" else "false"
    case Some(Null) => "null"
  }

  /** The characters JavaScript strips as white space: WhiteSpace (tab, vertical tab,
      form feed, U+FEFF and every space separator) and LineTerminator. */
  predicate IsJsWhitespace(c: char)
  {
    c == '\t' || c == '\n' || c == '\U{000B}' || c == '\U{000C}' || c == '\r' || c == ' '
    || c == '\U{00A0}' || c == '\U{1680}' || ('\U{2000}' <= c <= '\U{200A}') || c == '\U{202F}'
    || c == '\U{205F}' || c == '\U{3000}' || c == '\U{2028}' || c == '\U{2029}' || c == '\U{FEFF}'
  }

  /** The string without its leading white space. */
  function TrimStart(s: string): (r: string)
    ensures |r| <= |s| && r == s[|s| - |r|..]
    ensures r != [] ==> !IsJsWhitespace(r[0])
  {
    if s != [] && IsJsWhitespace(s[0]) then TrimStart(s[1..]) else s
  }

  /** `parseInt(s)` with no radix: skip leading white space, read an optional sign,
      then the magnitude; no digits at all gives `NaN`. */
  function ParseIntString(s: string): (v: Value)
    ensures v.Num? || v.NaN?
  {
    var t := TrimStart(s);
    var negative := t != [] && t[0] == '-';
    var u := if t != [] && (t[0] == '-' || t[0] == '+') then t[1..] else t;
    match ParseMagnitude(u)
    case None => NaN
    case Some(m) => Num(if negative then -m else m)
  }

  /** The unsigned part of `parseInt`: base 16 after a `0x`/`0X` prefix, base 10
      otherwise, reading the longest run of digits; `None` when there is none. */
  function ParseMagnitude(u: string): Option<int>
  {
    var hex := |u| >= 2 && u[0] == '0' && (u[1] == 'x' || u[1] == 'X');
    var radix := if hex then 16 else 10;
    var digits := LeadingDigits(if hex then u[2..] else u, radix);
    if digits == [] then None else Some(DigitsValue(digits, radix))
  }

  /** The digits `String(m)` prints read back as `m`. */
  lemma ParseMagnitudeOfNatString(m: nat)
    ensures ParseMagnitude(NatString(m)) == Some(m)
  {
    NatStringValue(m);
    NatStringAllDigits(m);
  }

  /** `parseInt(v)`: the value is first converted to a string. */
  function ParseInt(v: Option<Value>): (r: Value)
    ensures r.Num? || r.NaN?
  {
    ParseIntString(ToJsString(v))
  }

  /** `parseInt` gives back any integer it is handed. */
  lemma ParseIntOfNumber(n: int)
    ensures ParseInt(Some(Num(n))) == Num(n)
  {
    if n < 0 {
      var s := NatString(-n);
      assert DecimalString(n) == "-" + s;
      ParseSignedDigits("-" + s, s, true, -n);
    } else {
      ParseSignedDigits(NatString(n), NatString(n), false, n);
    }
  }

  /** `parseInt` of an optional minus sign followed by `NatString(m)`. */
  lemma ParseSignedDigits(str: string, s: string, negative: bool, m: nat)
    requires s == NatString(m)
    requires str == if negative then "-" + s else s
    ensures ParseIntString(str) == Num(if negative then -(m as int) else m)
  {
    ParseMagnitudeOfNatString(m);
    assert str[0] == '-' || '0' <= str[0] <= '9';
    assert !IsJsWhitespace(str[0]);
    assert TrimStart(str) == str;
    if negative {
      assert str[1..] == s;
    }
  }

  /** `parseInt` skips leading white space, reads the decimal digits that follow and
      ignores whatever comes after them, so `" 12 chairs"` reads as 12. */
  lemma ParseIntLeadingDigits(ws: string, m: nat, rest: string)
    requires forall i :: 0 <= i < |ws| ==> IsJsWhitespace(ws[i])
    requires rest == [] || !IsDigit(rest[0], 10)
    requires m == 0 ==> rest == [] || (rest[0] != 'x' && rest[0] != 'X')
    ensures ParseIntString(ws + NatString(m) + rest) == Num(m)
  {
    var t := NatString(m) + rest;
    assert ws + NatString(m) + rest == ws + t;
    TrimStartBlanks(ws, t);
    ParseMagnitudeThenText(m, rest);
    ParseIntUnsigned(ws + t, t, m);
  }

  /** A string that starts with a digit once trimmed is read without a sign. */
  lemma ParseIntUnsigned(s: string, t: string, m: nat)
    requires TrimStart(s) == t && t != [] && '0' <= t[0] <= '9'
    requires ParseMagnitude(t) == Some(m)
    ensures ParseIntString(s) == Num(m)
  {
  }

  /** The magnitude `parseInt` reads from `NatString(m)` followed by a non-digit. */
  lemma ParseMagnitudeThenText(m: nat, rest: string)
    requires rest == [] || !IsDigit(rest[0], 10)
    requires m == 0 ==> rest == [] || (rest[0] != 'x' && rest[0] != 'X')
    ensures ParseMagnitude(NatString(m) + rest) == Some(m)
  {
    var u := NatString(m) + rest;
    if m == 0 {
      assert NatString(m) == "0";
      assert |u| >= 2 ==> u[1] == rest[0];
    }
    assert !(|u| >= 2 && u[0] == '0' && (u[1] == 'x' || u[1] == 'X'));
    Text.LeadingDigitsAppend(NatString(m), rest, 10);
    NatStringValue(m);
  }

  /** Leading white space is all `TrimStart` removes. */
  lemma {:induction false} TrimStartBlanks(ws: string, t: string)
    requires forall i :: 0 <= i < |ws| ==> IsJsWhitespace(ws[i])
    requires t == [] || !IsJsWhitespace(t[0])
    ensures TrimStart(ws + t) == t
  {
    if ws == [] {
      assert ws + t == t;
    } else {
      assert (ws + t)[1..] == ws[1..] + t;
      TrimStartBlanks(ws[1..], t);
    }
  }

  /** Normalising with `parseInt` twice is normalising once. */
  lemma ParseIntIdempotent(v: Option<Value>)
    ensures ParseInt(Some(ParseInt(v))) == ParseInt(v)
  {
    match ParseInt(v)
    case Num(n) => ParseIntOfNumber(n);
    case NaN => ParseIntOfNaN();
  }

  /** `parseInt(NaN)` reads the string "NaN", which holds no digit. */
  lemma ParseIntOfNaN()
    ensures ParseInt(Some(NaN)) == NaN
  {
    var s := ToJsString(Some(NaN));
    assert s[0] == 'N' && !IsJsWhitespace(s[0]);
    assert TrimStart(s) == s;
    assert !IsDigit(s[0], 10);
    assert LeadingDigits(s, 10) == [];
  }

  /** The string without white space at either end. */
  function Trim(s: string): (r: string)
  {
    var t := TrimStart(s);
    TrimEnd(t)
  }

  function TrimEnd(s: string): (r: string)
    ensures |r| <= |s| && r == s[..|r|]
    ensures r != [] ==> !IsJsWhitespace(r[|r| - 1])
  {
    if s != [] && IsJsWhitespace(s[|s| - 1]) then TrimEnd(s[..|s| - 1]) else s
  }

  /** `Number(s)` for the integer spellings: the empty string is 0, otherwise an
      optionally signed run of decimal digits, or `0x` followed by hex digits;
      anything else is `NaN`. */
  function StringToNumber(s: string): (v: Value)
    ensures v.Num? || v.NaN?
  {
    var t := Trim(s);
    if t == [] then Num(0)
    else if |t| >= 2 && t[0] == '0' && (t[1] == 'x' || t[1] == 'X') then
      var digits := t[2..];
      if digits != [] && LeadingDigits(digits, 16) == digits then Num(DigitsValue(digits, 16)) else NaN
    else
      var negative := t[0] == '-';
      var digits := if t[0] == '-' || t[0] == '+' then t[1..] else t;
      if digits != [] && LeadingDigits(digits, 10) == digits then
        var magnitude: int := DigitsValue(digits, 10);
        Num(if negative then -magnitude else magnitude)
      else NaN
  }

  /** The number `Math.max` sees for a value: `undefined` is `NaN`, `null` is 0,
      booleans are 0 and 1, strings go through `Number`. */
  function ToNumber(v: Option<Value>): (r: Value)
    ensures r.Num? || r.NaN?
    ensures v.Some? && v.value.Num? ==> r == v.value
  {
    match v
    case None => NaN
    case Some(Num(n)) => Num(n)
    case Some(NaN) => NaN
    case Some(Str(s)) => StringToNumber(s)
    case Some(Bool(b)) => Num(if b then 1 else 0)
    case Some(Null) => Num(0)
  }

  /** `Math.max(...vals, 0)` over numbers: `NaN` as soon as one of them is `NaN`. */
  function MaxWithZero(vals: seq<Value>): (r: Value)
    requires forall i :: 0 <= i < |vals| ==> vals[i].Num? || vals[i].NaN?
    ensures r.Num? || r.NaN?
    ensures r.Num? <==> forall i :: 0 <= i < |vals| ==> vals[i].Num?
    ensures r.Num? ==> r.n >= 0 && forall i :: 0 <= i < |vals| ==> vals[i].n <= r.n
    ensures r.Num? ==> r.n == 0 || exists i :: 0 <= i < |vals| && vals[i] == r
  {
    if vals == [] then Num(0)
    else
      var rest := MaxWithZero(vals[1..]);
      if vals[0].NaN? || rest.NaN? then NaN
      else if vals[0].n > rest.n then vals[0] else rest
  }

  /** `v + 1` for a number. */
  function PlusOne(v: Value): (r: Value)
    requires v.Num? || v.NaN?
    ensures r.Num? <==> v.Num?
    ensures r.Num? ==> r.n == v.n + 1
  {
    if v.Num? then Num(v.n + 1) else NaN
  }
}
