/**
 Splitting, joining and decimal numbers: the parts of the Go and JavaScript libraries that
 several components rely on.
 */
module Text {

  datatype Option<+T> = None | Some(value: T)

  // The fields between separators; the empty text has one empty field.
  function Split<T(==)>(s: seq<T>, separator: T): (fields: seq<seq<T>>)
    ensures fields != []
    ensures forall f <- fields :: separator !in f
    ensures Join(fields, separator) == s
  {
    if s == [] then [[]]
    else
      var rest := Split(s[1..], separator);
      if s[0] == separator then
        assert [] + [separator] + Join(rest, separator) == s;
        [[]] + rest
      else
        var fields := [[s[0]] + rest[0]] + rest[1..];
        assert fields[1..] == rest[1..];
        assert |rest| > 1 ==> [s[0]] + rest[0] + [separator] + Join(rest[1..], separator) == s;
        fields
  }

  function Join<T>(fields: seq<seq<T>>, separator: T): seq<T>
    requires fields != []
  {
    if |fields| == 1 then fields[0] else fields[0] + [separator] + Join(fields[1..], separator)
  }

  // Reading a field without separators, then the rest.
  lemma {:induction false} SplitField<T>(f: seq<T>, rest: seq<T>, separator: T)
    requires separator !in f
    ensures Split(f + [separator] + rest, separator) == [f] + Split(rest, separator)
    ensures Split(f, separator) == [f]
  {
    hide Join;
    if f == [] {
      assert [] + [separator] + rest == [separator] + rest;
      assert ([separator] + rest)[1..] == rest;
    } else {
      SplitField(f[1..], rest, separator);
      var whole, tail := f + [separator] + rest, f[1..] + [separator] + rest;
      assert whole[1..] == tail && whole[0] == f[0] && f[0] in f;
      var fields := Split(tail, separator);
      assert fields[0] == f[1..] && fields[1..] == Split(rest, separator);
      assert Split(whole, separator) == [[f[0]] + fields[0]] + fields[1..];
      assert [f[0]] + f[1..] == f;
    }
  }

  // Splitting undoes joining when no field holds the separator.
  lemma {:induction false} SplitOfJoin<T>(fields: seq<seq<T>>, separator: T)
    requires fields != [] && forall f <- fields :: separator !in f
    ensures Split(Join(fields, separator), separator) == fields
  {
    SplitField(fields[0], if |fields| == 1 then [] else Join(fields[1..], separator), separator);
    if |fields| > 1 {
      SplitOfJoin(fields[1..], separator);
    }
  }

  predicate Alphanumeric(c: char) {
    'A' <= c <= 'Z' || 'a' <= c <= 'z' || '0' <= c <= '9'
  }

  predicate IsDigit(c: char) {
    '0' <= c <= '9'
  }

  predicate AllDigits(s: string) {
    forall i | 0 <= i < |s| :: IsDigit(s[i])
  }

  function DecimalValue(s: string): nat
    requires AllDigits(s)
  {
    if s == "" then 0 else 10 * DecimalValue(s[..|s| - 1]) + (s[|s| - 1] as int - '0' as int)
  }

  // strconv.Itoa on a natural number.
  function Itoa(n: nat): (s: string)
    ensures s != "" && AllDigits(s) && DecimalValue(s) == n
  {
    var digit := ('0' as int + n % 10) as char;
    if n < 10 then [digit]
    else
      var s := Itoa(n / 10) + [digit];
      assert s[..|s| - 1] == Itoa(n / 10);
      s
  }

  // strconv.Atoi: an optional sign and at least one digit.  The range error is not told apart
  // from a value too large for every caller.
  function Atoi(s: string): Option<int> {
    var digits := if s != "" && (s[0] == '+' || s[0] == '-') then s[1..] else s;
    if digits == "" || !AllDigits(digits) then None
    else
      var value: int := DecimalValue(digits);
      if s[0] == '-' then Some(-value) else Some(value)
  }

  lemma AtoiOfItoa(n: nat)
    ensures Atoi(Itoa(n)) == Some(n)
  {
    assert IsDigit(Itoa(n)[0]);
  }
}
