// The owner record of a directory lease and its one-line text form
// (src/key_lock_directory.rs:20-48, 146-184).

module LeaseRecord {
  import opened Prelude

  type u128 = n: nat | n < 0x1_0000_0000_0000_0000_0000_0000_0000_0000

  datatype Identity = Identity(host: string, pid: u32, start: u128, nonce: string)

  datatype Record = Record(identity: Identity, released: bool)

  // The same process may take the lease again and again, each time under a new nonce.
  predicate SameProcess(a: Identity, b: Identity) {
    a.host == b.host && a.pid == b.pid && a.start == b.start
  }

  // -- decimal numbers -------------------------------------------------------------------------

  predicate IsDigit(c: char) {
    '0' <= c <= '9'
  }

  function Print(n: nat): (s: string)
    ensures s != "" && AllDigits(s)
  {
    var digit := ['0' + (n % 10) as char];
    if n < 10 then digit else Print(n / 10) + digit
  }

  // Digit by digit, giving up at the first overflow.
  function ParseDigits(s: string, sofar: nat, max: nat): (r: Option<nat>)
    requires sofar <= max
    ensures r.Some? ==> r.value <= max
  {
    if s == "" then Some(sofar)
    else if !IsDigit(s[0]) then None
    else
      var next := sofar * 10 + (s[0] as int - '0' as int);
      if next > max then None else ParseDigits(s[1..], next, max)
  }

  // `str::parse` of an unsigned integer: one leading plus sign is accepted, as are leading zeros.
  function Parse(s: string, max: nat): (r: Option<nat>)
    ensures r.Some? ==> r.value <= max
  {
    if s == "" || s == "+" then None
    else if s[0] == '+' then ParseDigits(s[1..], 0, max)
    else ParseDigits(s, 0, max)
  }

  predicate AllDigits(s: string) {
    forall i :: 0 <= i < |s| ==> IsDigit(s[i])
  }

  // The number that a prefix worth `sofar` and the digits `s` stand for.
  function Value(s: string, sofar: nat): (n: nat)
    requires AllDigits(s)
    ensures n >= sofar
  {
    if s == "" then sofar else Value(s[1..], sofar * 10 + (s[0] as int - '0' as int))
  }

  lemma {:induction false} ValueSnoc(s: string, c: char, sofar: nat)
    requires AllDigits(s) && IsDigit(c)
    ensures Value(s + [c], sofar) == Value(s, sofar) * 10 + (c as int - '0' as int)
  {
    if s == "" {
      assert (s + [c])[1..] == "";
    } else {
      assert (s + [c])[1..] == s[1..] + [c];
      ValueSnoc(s[1..], c, sofar * 10 + (s[0] as int - '0' as int));
    }
  }

  // The digit loop computes the value of the string, and fails exactly on a non-digit or overflow.
  lemma {:induction false} ParsesValue(s: string, sofar: nat, max: nat)
    requires sofar <= max
    ensures ParseDigits(s, sofar, max) == if AllDigits(s) && Value(s, sofar) <= max then Some(Value(s, sofar)) else None
  {
    if s != "" && IsDigit(s[0]) {
      var next := sofar * 10 + (s[0] as int - '0' as int);
      assert AllDigits(s) <==> AllDigits(s[1..]) by {
        assert forall i :: 0 < i < |s| ==> s[i] == s[1..][i - 1];
        assert forall i :: 0 <= i < |s[1..]| ==> s[1..][i] == s[i + 1];
      }
      if next <= max { ParsesValue(s[1..], next, max); }
    }
  }

  lemma {:induction false} PrintedValue(n: nat)
    ensures Value(Print(n), 0) == n
  {
    if n >= 10 {
      PrintedValue(n / 10);
      ValueSnoc(Print(n / 10), '0' + (n % 10) as char, 0);
    } else {
      assert Print(n)[1..] == "";
    }
  }

  lemma PrintParse(n: nat, max: nat)
    requires n <= max
    ensures Parse(Print(n), max) == Some(n)
  {
    PrintedValue(n);
    ParsesValue(Print(n), 0, max);
    assert IsDigit(Print(n)[0]);
  }

  // -- fields -------------------------------------------------------------------------------------

  const SEPARATOR: char := '|'

  function Join(fields: seq<string>): string
    requires fields != []
  {
    if |fields| == 1 then fields[0] else fields[0] + [SEPARATOR] + Join(fields[1..])
  }

  function Split(s: string): (r: seq<string>)
    ensures r != []
  {
    if s == "" then [""]
    else if s[0] == SEPARATOR then [""] + Split(s[1..])
    else
      var rest := Split(s[1..]);
      [[s[0]] + rest[0]] + rest[1..]
  }

  predicate Plain(s: string) {
    SEPARATOR !in s
  }

  lemma {:induction false} SplitField(field: string, rest: string)
    requires Plain(field)
    ensures Split(field + [SEPARATOR] + rest) == [field] + Split(rest)
  {
    var s := field + [SEPARATOR] + rest;
    if field == "" {
      assert s[1..] == rest;
    } else {
      SplitField(field[1..], rest);
      assert s[1..] == field[1..] + [SEPARATOR] + rest;
      assert [s[0]] + field[1..] == field;
    }
  }

  lemma {:induction false} SplitPlain(field: string)
    requires Plain(field)
    ensures Split(field) == [field]
  {
    if field != "" {
      SplitPlain(field[1..]);
      assert [field[0]] + field[1..] == field;
    }
  }

  lemma {:induction false} SplitJoin(fields: seq<string>)
    requires fields != [] && forall i :: 0 <= i < |fields| ==> Plain(fields[i])
    ensures Split(Join(fields)) == fields
  {
    if |fields| == 1 {
      SplitPlain(fields[0]);
    } else {
      SplitField(fields[0], Join(fields[1..]));
      SplitJoin(fields[1..]);
    }
  }

  // Every field is free of separators, and the last one ends where the text ends.
  lemma {:induction false} SplitIsPlain(s: string)
    ensures forall i :: 0 <= i < |Split(s)| ==> Plain(Split(s)[i])
    ensures var last := Split(s)[|Split(s)| - 1]; last != "" ==> s != "" && s[|s| - 1] == last[|last| - 1]
  {
    if s != "" {
      SplitIsPlain(s[1..]);
      var rest := Split(s[1..]);
      if s[0] == SEPARATOR {
        assert Split(s) == [""] + rest;
      } else {
        assert Split(s) == [[s[0]] + rest[0]] + rest[1..];
        assert Plain([s[0]] + rest[0]);
        if s[1..] != "" { SomethingSplits(s[1..]); }
      }
    }
  }

  lemma SomethingSplits(s: string)
    requires s != ""
    ensures Split(s) != [""]
  {
    if s[0] == SEPARATOR { assert |Split(s)| > 1; } else { assert Split(s)[0] != ""; }
  }

  predicate IsLineEnd(c: char) {
    c == '\r' || c == '\n'
  }

  function TrimEnd(s: string): (r: string)
    ensures r != "" ==> !IsLineEnd(r[|r| - 1])
    ensures r <= s && forall i :: |r| <= i < |s| ==> IsLineEnd(s[i])
  {
    if s != "" && IsLineEnd(s[|s| - 1]) then TrimEnd(s[..|s| - 1]) else s
  }

  // -- the record -----------------------------------------------------------------------------------

  function State(released: bool): string {
    if released then "released" else "active"
  }

  function Encode(r: Record): string {
    Join([State(r.released), r.identity.host, Print(r.identity.pid), Print(r.identity.start), r.identity.nonce]) + "\n"
  }

  function Decode(contents: string): Option<Record> {
    var fields := Split(TrimEnd(contents));
    if |fields| != 5 || (fields[0] != "active" && fields[0] != "released") then None
    else
      var pid, start := Parse(fields[2], 0xffff_ffff), Parse(fields[3], 0xffff_ffff_ffff_ffff_ffff_ffff_ffff_ffff);
      if pid.None? || start.None? || fields[4] == "" then None
      else Some(Record(Identity(fields[1], pid.value, start.value, fields[4]), fields[0] == "released"))
  }

  // What the text form can carry.
  predicate Encodable(i: Identity) {
    Plain(i.host) && Plain(i.nonce) && i.nonce != "" && !IsLineEnd(i.nonce[|i.nonce| - 1])
  }

  lemma DigitsArePlain(n: nat)
    ensures Plain(Print(n))
  {
  }

  lemma EncodeThenTrim(r: Record)
    requires Encodable(r.identity)
    ensures TrimEnd(Encode(r)) == Encode(r)[..|Encode(r)| - 1]
  {
    var body := Encode(r)[..|Encode(r)| - 1];
    var fields := [State(r.released), r.identity.host, Print(r.identity.pid), Print(r.identity.start), r.identity.nonce];
    assert body == Join(fields);
    JoinEndsWithLast(fields);
    assert !IsLineEnd(body[|body| - 1]);
    assert TrimEnd(body) == body;
  }

  lemma {:induction false} JoinEndsWithLast(fields: seq<string>)
    requires fields != [] && fields[|fields| - 1] != ""
    ensures var last := fields[|fields| - 1]; Join(fields) != "" && Join(fields)[|Join(fields)| - 1] == last[|last| - 1]
  {
    if |fields| > 1 { JoinEndsWithLast(fields[1..]); }
  }

  lemma EncodableRoundTrips(r: Record)
    requires Encodable(r.identity)
    ensures Decode(Encode(r)) == Some(r)
  {
    var fields := [State(r.released), r.identity.host, Print(r.identity.pid), Print(r.identity.start), r.identity.nonce];
    EncodeThenTrim(r);
    assert TrimEnd(Encode(r)) == Join(fields);
    DigitsArePlain(r.identity.pid);
    DigitsArePlain(r.identity.start);
    SplitJoin(fields);
    PrintParse(r.identity.pid, 0xffff_ffff);
    PrintParse(r.identity.start, 0xffff_ffff_ffff_ffff_ffff_ffff_ffff_ffff);
  }

  // Whatever decodes can be written back and read again, even where the text was not canonical.
  lemma DecodedIsEncodable(contents: string)
    ensures Decode(contents).Some? ==>
              && Encodable(Decode(contents).value.identity)
              && Decode(Encode(Decode(contents).value)) == Decode(contents)
  {
    if Decode(contents).Some? {
      SplitIsPlain(TrimEnd(contents));
      EncodableRoundTrips(Decode(contents).value);
    }
  }

  // The exact condition under which a record survives being written and read.
  lemma RoundTripIff(r: Record)
    ensures Decode(Encode(r)) == Some(r) <==> Encodable(r.identity)
  {
    DecodedIsEncodable(Encode(r));
    if Encodable(r.identity) { EncodableRoundTrips(r); }
  }
}
