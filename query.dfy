/** The text of the request URLs: integers as JavaScript prints them inside a
    template literal, and query strings of `key=value` fields joined by `&`. */
module QueryString {

  predicate IsDigit(c: char) {
    '0' <= c <= '9'
  }

  function DigitChar(d: nat): (c: char)
    requires d < 10
    ensures IsDigit(c) && c as int - '0' as int == d
  {
    ('0' as int + d) as char
  }

  function DigitValue(c: char): nat {
    if IsDigit(c) then c as int - '0' as int else 0
  }

  /** The decimal digits of a natural number, most significant first. */
  function NatDigits(n: nat): (s: string)
    ensures |s| >= 1
    ensures forall i :: 0 <= i < |s| ==> IsDigit(s[i])
    decreases n
  {
    if n < 10 then [DigitChar(n)] else NatDigits(n / 10) + [DigitChar(n % 10)]
  }

  /** `${n}` for an integer-valued number n. */
  function Decimal(n: int): (s: string)
    ensures |s| >= 1
    ensures forall i :: 0 <= i < |s| ==> IsDigit(s[i]) || s[i] == '-'
  {
    if n < 0 then "-" + NatDigits(-n) else NatDigits(n)
  }

  /** Reads a run of digits back, most significant first. */
  function ParseNat(s: string): nat {
    if s == [] then 0 else ParseNat(s[..|s| - 1]) * 10 + DigitValue(s[|s| - 1])
  }

  function ParseDecimal(s: string): int {
    if |s| > 0 && s[0] == '-' then -(ParseNat(s[1..]) as int) else ParseNat(s)
  }

  lemma {:induction false} NatDigitsRoundTrip(n: nat)
    ensures ParseNat(NatDigits(n)) == n
    decreases n
  {
    if n >= 10 {
      NatDigitsRoundTrip(n / 10);
      var s := NatDigits(n);
      assert s[..|s| - 1] == NatDigits(n / 10);
    }
  }

  /** Printing an integer and reading it back gives the integer. */
  lemma DecimalRoundTrip(n: int)
    ensures ParseDecimal(Decimal(n)) == n
  {
    if n < 0 {
      NatDigitsRoundTrip(-n);
      assert Decimal(n)[1..] == NatDigits(-n);
    } else {
      NatDigitsRoundTrip(n);
    }
  }

  /** Two integers print alike only when they are equal. */
  lemma DecimalInjective(a: int, b: int)
    ensures Decimal(a) == Decimal(b) ==> a == b
  {
    DecimalRoundTrip(a);
    DecimalRoundTrip(b);
  }

  /** One `key=value` field of a query string. */
  function Field(kv: (string, string)): string {
    kv.0 + "=" + kv.1
  }

  /** The fields joined by `&`, in order. */
  function EncodeQuery(fields: seq<(string, string)>): string {
    if |fields| == 0 then ""
    else if |fields| == 1 then Field(fields[0])
    else EncodeQuery(fields[..|fields| - 1]) + "&" + Field(fields[|fields| - 1])
  }

  /** Encoding one more field appends `&` and the field. */
  lemma EncodeQuerySnoc(fields: seq<(string, string)>, kv: (string, string))
    requires |fields| >= 1
    ensures EncodeQuery(fields + [kv]) == EncodeQuery(fields) + "&" + Field(kv)
  {
    assert (fields + [kv])[..|fields|] == fields;
  }

  /** The pieces of s between occurrences of sep (as JavaScript's `split`). */
  function Split(s: string, sep: char): (pieces: seq<string>)
    ensures |pieces| >= 1
  {
    if s == [] then [""]
    else
      var init := Split(s[..|s| - 1], sep);
      if s[|s| - 1] == sep then init + [""]
      else init[..|init| - 1] + [init[|init| - 1] + [s[|s| - 1]]]
  }

  /** A field split at its first `=`; a field without `=` is a key with an empty value. */
  function SplitField(f: string): (string, string) {
    if f == [] then ("", "")
    else if f[0] == '=' then ("", f[1..])
    else
      var kv := SplitField(f[1..]);
      ([f[0]] + kv.0, kv.1)
  }

  function SplitFields(pieces: seq<string>): (fields: seq<(string, string)>)
    ensures |fields| == |pieces|
  {
    if pieces == [] then []
    else SplitFields(pieces[..|pieces| - 1]) + [SplitField(pieces[|pieces| - 1])]
  }

  /** A query string split at each `&` and each field at its first `=`,
      without percent-decoding and without cutting at `#`. */
  function ParseQuery(q: string): seq<(string, string)> {
    SplitFields(Split(q, '&'))
  }

  /** Text a server reads back unchanged from a query: no `&` (field separator),
      no `#` (end of the query), no `%` or `+` (decoded by the server). */
  predicate QuerySafe(s: string) {
    '&' !in s && '#' !in s && '%' !in s && '+' !in s
  }

  /** A field is plain when key and value are query-safe and the key holds no `=`. */
  predicate PlainField(kv: (string, string)) {
    QuerySafe(kv.0) && '=' !in kv.0 && QuerySafe(kv.1)
  }

  lemma {:induction false} SplitWithoutSeparator(s: string, sep: char)
    requires sep !in s
    ensures Split(s, sep) == [s]
    decreases |s|
  {
    if s != [] {
      SplitWithoutSeparator(s[..|s| - 1], sep);
      assert s[..|s| - 1] + [s[|s| - 1]] == s;
    }
  }

  lemma {:induction false} SplitAfterSeparator(a: string, sep: char, b: string)
    requires sep !in b
    ensures Split(a + [sep] + b, sep) == Split(a, sep) + [b]
    decreases |b|
  {
    var s := a + [sep] + b;
    if b == [] {
      assert s[..|s| - 1] == a;
    } else {
      var b' := b[..|b| - 1];
      assert s[..|s| - 1] == a + [sep] + b';
      SplitAfterSeparator(a, sep, b');
      assert b' + [b[|b| - 1]] == b;
    }
  }

  lemma {:induction false} SplitFieldOfField(k: string, v: string)
    requires '=' !in k
    ensures SplitField(Field((k, v))) == (k, v)
    decreases |k|
  {
    if k != [] {
      SplitFieldOfField(k[1..], v);
      assert Field((k, v))[1..] == Field((k[1..], v));
      assert [k[0]] + k[1..] == k;
    }
  }

  /** Parsing an encoded query gives back its fields, when they are plain. */
  lemma {:induction false} ParseEncodeQuery(fields: seq<(string, string)>)
    requires |fields| >= 1
    requires forall i :: 0 <= i < |fields| ==> PlainField(fields[i])
    ensures ParseQuery(EncodeQuery(fields)) == fields
    decreases |fields|
  {
    var last := fields[|fields| - 1];
    assert '&' !in Field(last);
    if |fields| == 1 {
      SplitWithoutSeparator(Field(last), '&');
      SplitFieldOfField(last.0, last.1);
    } else {
      var init := fields[..|fields| - 1];
      ParseEncodeQuery(init);
      SplitAfterSeparator(EncodeQuery(init), '&', Field(last));
      assert EncodeQuery(fields) == EncodeQuery(init) + ['&'] + Field(last);
      SplitFieldOfField(last.0, last.1);
      assert init + [last] == fields;
    }
  }
}
