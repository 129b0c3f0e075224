/** Python's text conversions as the programs use them: `str(n)` and
    `int(x)` on integers, the text an f-string puts in for a decoded value,
    and `sep.join(parts)`. */
module PyText {
  import opened PyJson

  predicate IsDigit(c: char) { '0' <= c <= '9' }

  predicate AllDigits(s: string) { forall i :: 0 <= i < |s| ==> IsDigit(s[i]) }

  function DigitChar(d: nat): (c: char)
    requires d < 10
    ensures IsDigit(c) && (c as int) - ('0' as int) == d
  {
    ('0' as int + d) as char
  }

  /** The number a run of decimal digits denotes. */
  function DigitsValue(s: string): nat
    requires AllDigits(s)
  {
    if s == [] then 0 else 10 * DigitsValue(s[..|s| - 1]) + ((s[|s| - 1] as int) - ('0' as int))
  }

  /** `str(n)` for n >= 0: decimal digits without a leading zero. */
  function FormatNat(n: nat): (r: string)
    ensures |r| > 0 && AllDigits(r)
    ensures |r| > 1 ==> r[0] != '0'
  {
    if n < 10 then [DigitChar(n)] else FormatNat(n / 10) + [DigitChar(n % 10)]
  }

  /** `str(n)` for any integer. */
  function FormatInt(n: int): string {
    if n < 0 then "-" + FormatNat(-n) else FormatNat(n)
  }

  /** The integer literals the model accepts: an optional sign followed by
      one or more decimal digits. */
  predicate IsIntLiteral(s: string) {
    if |s| > 0 && (s[0] == '+' || s[0] == '-') then |s| > 1 && AllDigits(s[1..])
    else |s| > 0 && AllDigits(s)
  }

  /** `int(s)` on a string, restricted to the literals above. */
  function ParseInt(s: string): (r: Option<int>)
    ensures r.Some? <==> IsIntLiteral(s)
  {
    if |s| > 0 && (s[0] == '+' || s[0] == '-') then
      if |s| > 1 && AllDigits(s[1..]) then
        var magnitude: int := DigitsValue(s[1..]);
        Some(if s[0] == '-' then -magnitude else magnitude)
      else None
    else if |s| > 0 && AllDigits(s) then Some(DigitsValue(s))
    else None
  }

  lemma {:induction false} DigitsOfFormatNat(n: nat)
    ensures DigitsValue(FormatNat(n)) == n
  {
    if n >= 10 {
      DigitsOfFormatNat(n / 10);
      var r := FormatNat(n);
      assert r[..|r| - 1] == FormatNat(n / 10);
    }
  }

  /** The form `str(n)` takes: a minus sign exactly for a negative number,
      then decimal digits with no leading zero (so never "-0" or "+3"). */
  predicate CanonicalInt(s: string) {
    if |s| > 0 && s[0] == '-' then |s| > 1 && AllDigits(s[1..]) && s[1] != '0'
    else |s| > 0 && AllDigits(s) && (|s| > 1 ==> s[0] != '0')
  }

  /** `str(n)` is in canonical form, carries a minus sign exactly when
      n < 0, and reads back as n. */
  lemma FormatIntCanonical(n: int)
    ensures CanonicalInt(FormatInt(n))
    ensures FormatInt(n)[0] == '-' <==> n < 0
    ensures ParseInt(FormatInt(n)) == Some(n)
  {
    ParseFormatRoundTrip(n);
    if n < 0 {
      var r := FormatInt(n);
      var m := FormatNat(-n);
      assert r[1..] == m;
      if -n < 10 {
        assert m == [DigitChar(-n)];
      }
    }
  }

  /** `int(str(n)) == n`. */
  lemma ParseFormatRoundTrip(n: int)
    ensures ParseInt(FormatInt(n)) == Some(n)
  {
    DigitsOfFormatNat(if n < 0 then -n else n);
    if n < 0 {
      var r := FormatInt(n);
      assert r[1..] == FormatNat(-n);
    }
  }

  /** `int(x)` on a decoded value: strings are parsed, integers and booleans
      convert, everything else is a TypeError. */
  function ToInt(j: Json): (r: Result<int>)
    ensures j.JNum? ==> r == Ok(j.n)
    ensures j.JStr? ==> (r.Ok? <==> IsIntLiteral(j.s))
    ensures j.JStr? && r.Ok? ==> ParseInt(j.s) == Some(r.value)
    ensures j.JStr? && r.Err? ==> r.error == ValueError(j.s)
    ensures j.JBool? ==> r == Ok(if j.b then 1 else 0)
    ensures r.Ok? ==> j.JNum? || j.JBool? || j.JStr?
  {
    match j
    case JStr(s) =>
      (match ParseInt(s)
       case Some(n) => Ok(n)
       case None => Err(ValueError(s)))
    case JNum(n) => Ok(n)
    case JBool(b) => Ok(if b then 1 else 0)
    case _ => Err(TypeError("int() argument must be a string, a bytes-like object or a real number, not '" + TypeName(j) + "'"))
  }

  /** `sep.join(parts)`. */
  function Join(sep: string, parts: seq<string>): string {
    if parts == [] then ""
    else if |parts| == 1 then parts[0]
    else parts[0] + sep + Join(sep, parts[1..])
  }

  /** Adding one more part adds the separator and the part at the end. */
  lemma {:induction false} JoinSnoc(sep: string, parts: seq<string>, last: string)
    requires parts != []
    ensures Join(sep, parts + [last]) == Join(sep, parts) + sep + last
  {
    if |parts| > 1 {
      assert (parts + [last])[1..] == parts[1..] + [last];
      JoinSnoc(sep, parts[1..], last);
    }
  }

  /** `repr(j)`, used for the elements of a list or dict that an f-string
      prints. Strings are quoted with single quotes and not escaped. */
  function Repr(j: Json): string
    decreases j
  {
    match j
    case JNull => "None"
    case JBool(b) => if b then "True" else "False"
    case JNum(n) => FormatInt(n)
    case JStr(s) => "'" + s + "'"
    case JArr(items) => "[" + Join(", ", seq(|items|, i requires 0 <= i < |items| => Repr(items[i]))) + "]"
    case JObj(entries) =>
      "{" + Join(", ", seq(|entries|, i requires 0 <= i < |entries| =>
                             "'" + entries[i].0 + "': " + Repr(entries[i].1))) + "}"
  }

  /** The text an f-string substitutes for `{j}`, i.e. `str(j)`. */
  function Render(j: Json): (r: string)
    ensures j.JStr? ==> r == j.s
    ensures j.JNum? ==> r == FormatInt(j.n) && ParseInt(r) == Some(j.n)
  {
    if j.JNum? then ParseFormatRoundTrip(j.n); FormatInt(j.n)
    else if j.JStr? then j.s
    else Repr(j)
  }
}
