/** Values every other module speaks about: optional values, results, validation errors and JSON. */
module Shared {

  datatype Option<+T> = None | Some(value: T)

  datatype Result<+T, +E> = Ok(value: T) | Err(error: E)

  datatype ValidationError = ValidationError(path: string, message: string)

  /** A value of unknown shape, as a request body, a rules record or a parsed line holds it. */
  datatype Json =
    | Undefined
    | Null
    | Bool(b: bool)
    | Num(n: real)
    | Str(s: string)
    | Arr(items: seq<Json>)
    | Obj(fields: map<string, Json>)
  {
    /** `this ?? other`: a missing or null value gives way to the other one. */
    function OrElse(other: Json): Json {
      if Undefined? || Null? then other else this
    }

    /** Reading a property: absent ones, and those of anything but a record, are undefined. */
    function Field(name: string): Json {
      if Obj? && name in fields then fields[name] else Undefined
    }
  }

  /** A whole number as JavaScript's `String(n)` writes it. */
  function Decimal(n: nat): (text: string)
    ensures |text| > 0
    ensures forall i :: 0 <= i < |text| ==> '0' <= text[i] <= '9'
  {
    var digit := ['0', '1', '2', '3', '4', '5', '6', '7', '8', '9'][n % 10];
    if n < 10 then [digit] else Decimal(n / 10) + [digit]
  }

  /** What digits stand for. */
  function Worth(digits: string): nat
    requires forall i :: 0 <= i < |digits| ==> '0' <= digits[i] <= '9'
  {
    if digits == "" then 0
    else Worth(digits[..|digits| - 1]) * 10 + (digits[|digits| - 1] as int - '0' as int)
  }

  lemma {:induction false} DecimalReadsBack(n: nat)
    ensures Worth(Decimal(n)) == n
  {
    var digits := Decimal(n);
    assert digits[|digits| - 1] as int - '0' as int == n % 10;
    if n >= 10 {
      DecimalReadsBack(n / 10);
      assert digits[..|digits| - 1] == Decimal(n / 10);
    } else {
      assert digits[..0] == "";
    }
  }

  /** The errors with every path put under `prefix`. */
  function PrefixErrors(prefix: string, errors: seq<ValidationError>): (r: seq<ValidationError>)
    ensures |r| == |errors|
    ensures forall i :: 0 <= i < |r| ==>
      r[i].message == errors[i].message && |prefix| <= |r[i].path| && r[i].path[..|prefix|] == prefix
  {
    seq(|errors|, i requires 0 <= i < |errors| =>
      ValidationError(
        if errors[i].path == "" then prefix else prefix + "." + errors[i].path,
        errors[i].message))
  }

  function Flatten(parts: seq<seq<ValidationError>>): seq<ValidationError> {
    if parts == [] then [] else Flatten(parts[..|parts| - 1]) + parts[|parts| - 1]
  }

  /** Nothing is reported exactly when no part reports anything. */
  lemma {:induction false} FlattenEmpty(parts: seq<seq<ValidationError>>)
    ensures Flatten(parts) == [] <==> forall i :: 0 <= i < |parts| ==> parts[i] == []
  {
    if parts != [] {
      var n := |parts| - 1;
      FlattenEmpty(parts[..n]);
      assert |Flatten(parts)| == |Flatten(parts[..n])| + |parts[n]|;
      assert forall i :: 0 <= i < n ==> parts[..n][i] == parts[i];
    }
  }

  lemma FlattenOneMore(parts: seq<seq<ValidationError>>, i: nat)
    requires i < |parts|
    ensures Flatten(parts[..i + 1]) == Flatten(parts[..i]) + parts[i]
  {
    assert parts[..i + 1][..i] == parts[..i];
  }

  lemma FlattenAll(parts: seq<seq<ValidationError>>)
    ensures Flatten(parts[..|parts|]) == Flatten(parts) && Flatten(parts[..0]) == []
  {
    assert parts[..|parts|] == parts;
  }

  /** White space as JavaScript's `trim` knows it. */
  predicate IsSpace(c: char) {
    '\t' <= c <= '\r' || c == ' ' || c == '\U{00A0}' || c == '\U{1680}' || '\U{2000}' <= c <= '\U{200A}' ||
    c == '\U{2028}' || c == '\U{2029}' || c == '\U{202F}' || c == '\U{205F}' || c == '\U{3000}' || c == '\U{FEFF}'
  }

  /** By code: the white space and line terminators of ECMAScript. */
  lemma SpacesAre(c: char)
    ensures IsSpace(c) <==>
      || 9 <= c as int < 14 || 8192 <= c as int < 8203
      || c as int in {32, 160, 5760, 8232, 8233, 8239, 8287, 12288, 65279}
  {
  }

  function Trim(s: string): (r: string)
    ensures r != "" ==> !IsSpace(r[0]) && !IsSpace(r[|r| - 1])
  {
    if s == "" then ""
    else if IsSpace(s[0]) then Trim(s[1..])
    else if IsSpace(s[|s| - 1]) then Trim(s[..|s| - 1])
    else s
  }

  /** Trimming takes white space off both ends and leaves what is between. */
  lemma {:induction false} TrimIsTheMiddle(s: string) returns (i: nat, j: nat)
    ensures i <= j <= |s| && Trim(s) == s[i..j]
    ensures forall k :: 0 <= k < i || j <= k < |s| ==> IsSpace(s[k])
  {
    if s == "" {
      i, j := 0, 0;
    } else if IsSpace(s[0]) {
      var rest := s[1..];
      i, j := TrimIsTheMiddle(rest);
      assert rest[i..j] == s[i + 1..j + 1];
      i, j := i + 1, j + 1;
      forall k | 0 <= k < i || j <= k < |s| ensures IsSpace(s[k]) {
        if k > 0 {
          assert rest[k - 1] == s[k];
        }
      }
    } else if IsSpace(s[|s| - 1]) {
      var rest := s[..|s| - 1];
      i, j := TrimIsTheMiddle(rest);
      assert rest[i..j] == s[i..j];
      forall k | 0 <= k < i || j <= k < |s| ensures IsSpace(s[k]) {
        if k < |s| - 1 {
          assert rest[k] == s[k];
        }
      }
    } else {
      i, j := 0, |s|;
    }
  }

  /** Nothing is left exactly of a text of white space. */
  lemma TrimOfSpaceIsNothing(s: string)
    ensures Trim(s) == "" <==> forall k :: 0 <= k < |s| ==> IsSpace(s[k])
  {
    var i, j := TrimIsTheMiddle(s);
    if i < j {
      assert Trim(s)[0] == s[i];
    }
  }
}
