/**
  JSON texts as the connector writes them with Python's `json.dumps` (default
  separators ", " and ": ") and reads them back with `json.loads`.

  The documents the connector stores are flat: a scalar, or an object whose
  member values are scalars. Numbers are integers; strings carry the escapes
  \" \\ \/ \b \f \n \r \t. The central fact is the round trip
  `Decode(Encode(v)) == Some(v)`.
*/
module Json {
  import opened Wrappers

  datatype Scalar =
    | Null
    | Bool(b: bool)
    | Int(n: int)
    | Str(s: string)

  datatype Value =
    | Atom(a: Scalar)
    | Object(members: seq<Member>)

  datatype Member = Member(key: string, value: Scalar)

  // ---------------------------------------------------------------------------
  // Characters

  predicate IsDigit(c: char) { '0' <= c <= '9' }

  predicate AllDigits(s: string) { forall i :: 0 <= i < |s| ==> IsDigit(s[i]) }

  function Digit(d: nat): (c: char)
    requires d < 10
    ensures IsDigit(c)
  {
    (d + 48) as char
  }

  function DigitValue(c: char): nat
    requires IsDigit(c)
  {
    c as int - 48
  }

  /** The insignificant whitespace of the JSON grammar. */
  predicate IsWhitespace(c: char) { c == ' ' || c == '\t' || c == '\n' || c == '\r' }

  // ---------------------------------------------------------------------------
  // Encoding (json.dumps)

  /** Decimal digits of `n`, without leading zeros. */
  function NatText(n: nat): (r: string)
    ensures |r| > 0 && AllDigits(r)
    ensures |r| > 1 ==> r[0] != '0'
  {
    if n < 10 then [Digit(n)] else NatText(n / 10) + [Digit(n % 10)]
  }

  function IntText(n: int): string
  {
    if n < 0 then "-" + NatText(-n) else NatText(n)
  }

  function EscapeChar(c: char): string
  {
    if c == '"' then "\\\""
    else if c == '\\' then "\\\\"
    else if c == '\n' then "\\n"
    else if c == '\r' then "\\r"
    else if c == '\t' then "\\t"
    else if c == '\U{8}' then "\\b"
    else if c == '\U{C}' then "\\f"
    else [c]
  }

  function Escape(s: string): string
  {
    if s == [] then [] else EscapeChar(s[0]) + Escape(s[1..])
  }

  function Quote(s: string): string
  {
    "\"" + Escape(s) + "\""
  }

  function EncodeScalar(a: Scalar): string
  {
    match a
    case Null => "null"
    case Bool(b) => if b then "true" else "false"
    case Int(n) => IntText(n)
    case Str(s) => Quote(s)
  }

  function EncodeMember(m: Member): string
  {
    Quote(m.key) + ": " + EncodeScalar(m.value)
  }

  function EncodeMembers(members: seq<Member>): string
  {
    if members == [] then ""
    else if |members| == 1 then EncodeMember(members[0])
    else EncodeMember(members[0]) + ", " + EncodeMembers(members[1..])
  }

  /** `json.dumps` */
  function Encode(v: Value): string
  {
    match v
    case Atom(a) => EncodeScalar(a)
    case Object(members) => "{" + EncodeMembers(members) + "}"
  }

  // ---------------------------------------------------------------------------
  // Decoding (json.loads). Each parser returns what it read and the text after it.

  function SkipWhitespace(s: string): (r: string)
    ensures |r| <= |s|
    ensures r == [] || !IsWhitespace(r[0])
  {
    if s != [] && IsWhitespace(s[0]) then SkipWhitespace(s[1..]) else s
  }

  /** The character denoted by the escape sequence backslash-`c`. */
  function Unescape(c: char): Option<char>
  {
    if c == '"' then Some('"')
    else if c == '\\' then Some('\\')
    else if c == '/' then Some('/')
    else if c == 'b' then Some('\U{8}')
    else if c == 'f' then Some('\U{C}')
    else if c == 'n' then Some('\n')
    else if c == 'r' then Some('\r')
    else if c == 't' then Some('\t')
    else None
  }

  /** The body of a string literal whose opening quote is already consumed. */
  function ParseString(s: string): (r: Option<(string, string)>)
    ensures r.Some? ==> |r.value.1| < |s|
  {
    if s == [] then None
    else if s[0] == '"' then Some(([], s[1..]))
    else if s[0] == '\\' then
      if |s| < 2 then None
      else match Unescape(s[1])
        case None => None
        case Some(c) =>
          match ParseString(s[2..])
          case None => None
          case Some((body, rest)) => Some(([c] + body, rest))
    else
      match ParseString(s[1..])
      case None => None
      case Some((body, rest)) => Some(([s[0]] + body, rest))
  }

  /** Length of the longest prefix of `s` made of digits. */
  function DigitRun(s: string): (k: nat)
    ensures k <= |s| && AllDigits(s[..k])
    ensures k < |s| ==> !IsDigit(s[k])
  {
    if s != [] && IsDigit(s[0]) then
      var k := 1 + DigitRun(s[1..]);
      assert s[..k] == [s[0]] + s[1..][..k - 1];
      k
    else 0
  }

  /** The number written by the decimal digits `ds`. */
  function DigitsValue(ds: string): nat
    requires AllDigits(ds)
  {
    if ds == [] then 0 else DigitsValue(ds[..|ds| - 1]) * 10 + DigitValue(ds[|ds| - 1])
  }

  /** Decimal digits without a leading zero. */
  function ParseNatural(s: string): (r: Option<(nat, string)>)
    ensures r.Some? ==> |r.value.1| < |s|
  {
    var k := DigitRun(s);
    if k == 0 || (k > 1 && s[0] == '0') then None
    else Some((DigitsValue(s[..k]), s[k..]))
  }

  /** An integer: an optional minus sign, then digits without a leading zero. */
  function ParseNumber(s: string): (r: Option<(Scalar, string)>)
    ensures r.Some? ==> |r.value.1| < |s|
  {
    if s != [] && s[0] == '-' then
      match ParseNatural(s[1..])
      case None => None
      case Some((n, rest)) => Some((Int(0 - n), rest))
    else
      match ParseNatural(s)
      case None => None
      case Some((n, rest)) => Some((Int(n), rest))
  }

  function ParseLiteral(s: string, word: string, a: Scalar): (r: Option<(Scalar, string)>)
    requires |word| > 0
    ensures r.Some? ==> |r.value.1| < |s|
  {
    if |word| <= |s| && s[..|word|] == word then Some((a, s[|word|..])) else None
  }

  function ParseScalar(s: string): (r: Option<(Scalar, string)>)
    ensures r.Some? ==> |r.value.1| < |s|
  {
    var t := SkipWhitespace(s);
    if t == [] then None
    else if t[0] == 'n' then ParseLiteral(t, "null", Null)
    else if t[0] == 't' then ParseLiteral(t, "true", Bool(true))
    else if t[0] == 'f' then ParseLiteral(t, "false", Bool(false))
    else if t[0] == '-' || IsDigit(t[0]) then ParseNumber(t)
    else if t[0] == '"' then
      match ParseString(t[1..])
      case None => None
      case Some((body, rest)) => Some((Str(body), rest))
    else None
  }

  /** One or more object members and the closing brace. */
  function ParseMembers(s: string): (r: Option<(seq<Member>, string)>)
    ensures r.Some? ==> |r.value.1| < |s|
    decreases |s|
  {
    var t := SkipWhitespace(s);
    if t == [] || t[0] != '"' then None
    else
      match ParseString(t[1..])
      case None => None
      case Some((key, afterKey)) =>
        var u := SkipWhitespace(afterKey);
        if u == [] || u[0] != ':' then None
        else
          match ParseScalar(u[1..])
          case None => None
          case Some((a, rest)) =>
            var w := SkipWhitespace(rest);
            if w == [] then None
            else if w[0] == '}' then Some(([Member(key, a)], w[1..]))
            else if w[0] == ',' then
              match ParseMembers(w[1..])
              case None => None
              case Some((ms, rest')) => Some(([Member(key, a)] + ms, rest'))
            else None
  }

  /** An object whose opening brace is already consumed. */
  function ParseObject(s: string): Option<(Value, string)>
  {
    var u := SkipWhitespace(s);
    if u != [] && u[0] == '}' then Some((Object([]), u[1..]))
    else
      match ParseMembers(s)
      case None => None
      case Some((members, rest)) => Some((Object(members), rest))
  }

  function ParseValue(s: string): Option<(Value, string)>
  {
    var t := SkipWhitespace(s);
    if t != [] && t[0] == '{' then ParseObject(t[1..])
    else
      match ParseScalar(s)
      case None => None
      case Some((a, rest)) => Some((Atom(a), rest))
  }

  /** `json.loads`: one value, surrounded by nothing but whitespace. */
  function Decode(text: string): Option<Value>
  {
    match ParseValue(text)
    case None => None
    case Some((v, rest)) => if SkipWhitespace(rest) == [] then Some(v) else None
  }

  // ---------------------------------------------------------------------------
  // Round trip

  /** What may follow an encoded scalar inside an encoded document. */
  predicate Closes(rest: string)
  {
    rest == [] || rest[0] == ',' || rest[0] == '}'
  }

  lemma {:induction false} DigitRunOfDigits(ds: string, rest: string)
    requires AllDigits(ds)
    requires rest == [] || !IsDigit(rest[0])
    ensures DigitRun(ds + rest) == |ds|
  {
    if ds != [] {
      assert (ds + rest)[1..] == ds[1..] + rest;
      DigitRunOfDigits(ds[1..], rest);
    } else {
      assert ds + rest == rest;
    }
  }

  lemma {:induction false} NatTextValue(n: nat)
    ensures DigitsValue(NatText(n)) == n
  {
    if n >= 10 {
      var prefix := NatText(n / 10);
      var ds := prefix + [Digit(n % 10)];
      assert ds[..|ds| - 1] == prefix;
      NatTextValue(n / 10);
    }
  }

  /** The digits of `m`, followed by a text that does not start with a digit, read back as `m`. */
  lemma {:induction false} NaturalRoundTrip(m: nat, rest: string)
    requires rest == [] || !IsDigit(rest[0])
    ensures ParseNatural(NatText(m) + rest) == Some((m, rest))
  {
    var ds := NatText(m);
    var body := ds + rest;
    DigitRunOfDigits(ds, rest);
    NatTextValue(m);
    assert body[..|ds|] == ds;
    assert body[|ds|..] == rest;
  }

  /** A minus sign before a natural number reads back as its negation. */
  lemma {:induction false} MinusRoundTrip(ds: string, m: nat, rest: string)
    requires ParseNatural(ds + rest) == Some((m, rest))
    ensures ParseNumber("-" + ds + rest) == Some((Int(0 - m), rest))
  {
    var s := "-" + ds + rest;
    assert s[0] == '-' && s[1..] == ds + rest;
  }

  lemma {:induction false} NegativeRoundTrip(n: int, rest: string)
    requires n < 0 && Closes(rest)
    ensures ParseNumber(IntText(n) + rest) == Some((Int(n), rest))
  {
    var ds := NatText(-n);
    assert IntText(n) == "-" + ds;
    NaturalRoundTrip(-n, rest);
    MinusRoundTrip(ds, -n, rest);
  }

  lemma {:induction false} NonNegativeRoundTrip(n: int, rest: string)
    requires n >= 0 && Closes(rest)
    ensures ParseNumber(IntText(n) + rest) == Some((Int(n), rest))
  {
    var s := IntText(n) + rest;
    NaturalRoundTrip(n, rest);
    assert s == NatText(n) + rest;
    assert IsDigit(NatText(n)[0]);
    assert s[0] != '-';
  }

  lemma {:induction false} IntRoundTrip(n: int, rest: string)
    requires Closes(rest)
    ensures ParseNumber(IntText(n) + rest) == Some((Int(n), rest))
  {
    if n < 0 {
      NegativeRoundTrip(n, rest);
    } else {
      NonNegativeRoundTrip(n, rest);
    }
  }

  /** An escaped character reads back as that character, followed by whatever the rest reads as. */
  lemma {:induction false} EscapeCharRoundTrip(c: char, tail: string)
    ensures ParseString(EscapeChar(c) + tail)
            == match ParseString(tail)
               case None => None
               case Some((body, rest)) => Some(([c] + body, rest))
  {
    var text := EscapeChar(c) + tail;
    if |EscapeChar(c)| == 2 {
      assert text[0] == '\\' && text[2..] == tail;
    } else {
      assert text[0] == c && text[1..] == tail;
    }
  }

  lemma {:induction false} StringRoundTrip(s: string, rest: string)
    ensures ParseString(Escape(s) + "\"" + rest) == Some((s, rest))
  {
    if s == [] {
      assert Escape(s) + "\"" + rest == "\"" + rest;
    } else {
      var tail := Escape(s[1..]) + "\"" + rest;
      assert Escape(s) + "\"" + rest == EscapeChar(s[0]) + tail;
      StringRoundTrip(s[1..], rest);
      EscapeCharRoundTrip(s[0], tail);
      assert [s[0]] + s[1..] == s;
    }
  }

  lemma {:induction false} LiteralRoundTrip(a: Scalar, rest: string)
    requires a.Null? || a.Bool?
    ensures ParseScalar(EncodeScalar(a) + rest) == Some((a, rest))
  {
    var w := EncodeScalar(a);
    var text := w + rest;
    assert text[..|w|] == w;
    assert text[|w|..] == rest;
    assert SkipWhitespace(text) == text;
  }

  lemma {:induction false} NumberRoundTrip(n: int, rest: string)
    requires Closes(rest)
    ensures ParseScalar(IntText(n) + rest) == Some((Int(n), rest))
  {
    var w := IntText(n);
    var text := w + rest;
    if n >= 0 {
      assert IsDigit(NatText(n)[0]);
    }
    assert text[0] == w[0];
    assert SkipWhitespace(text) == text;
    IntRoundTrip(n, rest);
  }

  lemma {:induction false} QuotedRoundTrip(s: string, rest: string)
    ensures ParseScalar(Quote(s) + rest) == Some((Str(s), rest))
  {
    var text := Quote(s) + rest;
    assert text == "\"" + (Escape(s) + "\"" + rest);
    assert text[1..] == Escape(s) + "\"" + rest;
    assert SkipWhitespace(text) == text;
    StringRoundTrip(s, rest);
  }

  lemma {:induction false} ScalarRoundTrip(a: Scalar, rest: string)
    requires Closes(rest)
    ensures ParseScalar(EncodeScalar(a) + rest) == Some((a, rest))
  {
    match a
    case Int(n) => NumberRoundTrip(n, rest);
    case Str(s) => QuotedRoundTrip(s, rest);
    case _ => LiteralRoundTrip(a, rest);
  }

  lemma {:induction false} ParseScalarSkipsSpace(s: string)
    ensures ParseScalar(" " + s) == ParseScalar(s)
  {
    assert (" " + s)[1..] == s;
    assert SkipWhitespace(" " + s) == SkipWhitespace(s);
  }

  lemma {:induction false} ParseMembersSkipsSpace(s: string)
    ensures ParseMembers(" " + s) == ParseMembers(s)
  {
    assert (" " + s)[1..] == s;
    assert SkipWhitespace(" " + s) == SkipWhitespace(s);
  }

  lemma {:induction false} KeyRoundTrip(key: string, afterKey: string)
    ensures var text := Quote(key) + afterKey;
      text[0] == '"' && ParseString(text[1..]) == Some((key, afterKey))
  {
    var text := Quote(key) + afterKey;
    assert text == "\"" + (Escape(key) + "\"" + afterKey);
    assert text[1..] == Escape(key) + "\"" + afterKey;
    StringRoundTrip(key, afterKey);
  }

  lemma {:induction false} ValueRoundTrip(a: Scalar, after: string)
    requires Closes(after)
    ensures ParseScalar((": " + (EncodeScalar(a) + after))[1..]) == Some((a, after))
  {
    var value := EncodeScalar(a) + after;
    assert (": " + value)[1..] == " " + value;
    ParseScalarSkipsSpace(value);
    ScalarRoundTrip(a, after);
  }

  /** The key, the colon and the value of an encoded member, read back. */
  lemma {:induction false} MemberRoundTrip(m: Member, after: string)
    requires Closes(after)
    ensures var text := EncodeMember(m) + after;
      var afterKey := ": " + (EncodeScalar(m.value) + after);
      && text[0] == '"'
      && ParseString(text[1..]) == Some((m.key, afterKey))
      && ParseScalar(afterKey[1..]) == Some((m.value, after))
  {
    var afterKey := ": " + (EncodeScalar(m.value) + after);
    assert EncodeMember(m) + after == Quote(m.key) + afterKey;
    KeyRoundTrip(m.key, afterKey);
    ValueRoundTrip(m.value, after);
  }

  /** ParseMembers reads one member, then stops at a brace or goes on after a comma. */
  lemma {:induction false} ParseMembersStep(text: string, m: Member, afterKey: string, after: string,
                                            ms: seq<Member>, rest: string)
    requires text != [] && text[0] == '"'
    requires ParseString(text[1..]) == Some((m.key, afterKey))
    requires afterKey != [] && afterKey[0] == ':'
    requires ParseScalar(afterKey[1..]) == Some((m.value, after))
    requires after != [] && (after[0] == '}' || after[0] == ',')
    requires after[0] == '}' ==> ms == [] && rest == after[1..]
    requires after[0] == ',' ==> ParseMembers(after[1..]) == Some((ms, rest))
    ensures ParseMembers(text) == Some(([m] + ms, rest))
  {
    var t := SkipWhitespace(text);
    assert t == text && t[1..] == text[1..];
    var u := SkipWhitespace(afterKey);
    assert u == afterKey && u[1..] == afterKey[1..];
    var w := SkipWhitespace(after);
    assert w == after && w[1..] == after[1..];
    assert [m] + [] == [m];
  }

  lemma {:induction false} MembersRoundTrip(members: seq<Member>, rest: string)
    requires members != []
    ensures ParseMembers(EncodeMembers(members) + "}" + rest) == Some((members, rest))
  {
    var m := members[0];
    EncodeMembersSplit(members, rest);
    if |members| == 1 {
      LastMemberRoundTrip(m, rest);
    } else {
      MembersRoundTrip(members[1..], rest);
      NextMemberRoundTrip(m, EncodeMembers(members[1..]) + "}" + rest, members[1..], rest);
    }
  }

  /** An encoded member list splits after its first member. */
  lemma {:induction false} EncodeMembersSplit(members: seq<Member>, rest: string)
    requires members != []
    ensures |members| == 1 ==>
      && EncodeMembers(members) + "}" + rest == EncodeMember(members[0]) + ("}" + rest)
      && members == [members[0]]
    ensures |members| > 1 ==>
      && EncodeMembers(members) + "}" + rest ==
         EncodeMember(members[0]) + (", " + (EncodeMembers(members[1..]) + "}" + rest))
      && members == [members[0]] + members[1..]
  {
  }

  /** An encoded member followed by a brace or a comma is read as that member and what follows. */
  lemma {:induction false} MemberThen(m: Member, after: string, ms: seq<Member>, rest: string)
    requires after != [] && (after[0] == '}' || after[0] == ',')
    requires after[0] == '}' ==> ms == [] && rest == after[1..]
    requires after[0] == ',' ==> ParseMembers(after[1..]) == Some((ms, rest))
    ensures ParseMembers(EncodeMember(m) + after) == Some(([m] + ms, rest))
  {
    MemberRoundTrip(m, after);
    ParseMembersStep(EncodeMember(m) + after, m, ": " + (EncodeScalar(m.value) + after), after, ms, rest);
  }

  lemma {:induction false} LastMemberRoundTrip(m: Member, rest: string)
    ensures ParseMembers(EncodeMember(m) + ("}" + rest)) == Some(([m], rest))
  {
    var after := "}" + rest;
    assert after[0] == '}' && after[1..] == rest;
    MemberThen(m, after, [], rest);
    assert [m] + [] == [m];
  }

  lemma {:induction false} NextMemberRoundTrip(m: Member, tail: string, ms: seq<Member>, rest: string)
    requires ParseMembers(tail) == Some((ms, rest))
    ensures ParseMembers(EncodeMember(m) + (", " + tail)) == Some(([m] + ms, rest))
  {
    var after := ", " + tail;
    assert after[0] == ',' && after[1..] == " " + tail;
    ParseMembersSkipsSpace(tail);
    MemberThen(m, after, ms, rest);
  }

  lemma {:induction false} AtomRoundTrip(a: Scalar)
    ensures ParseValue(EncodeScalar(a)) == Some((Atom(a), []))
  {
    var text := EncodeScalar(a);
    assert text + [] == text;
    ScalarRoundTrip(a, []);
    assert SkipWhitespace(text) == text;
  }

  lemma {:induction false} ObjectRoundTrip(members: seq<Member>)
    ensures ParseValue(Encode(Object(members))) == Some((Object(members), []))
  {
    var text := Encode(Object(members));
    var inner := EncodeMembers(members) + "}" + [];
    assert text == "{" + inner;
    assert SkipWhitespace(text) == text;
    assert text[1..] == inner;
    if members == [] {
      assert inner == "}";
    } else {
      MembersRoundTrip(members, []);
      assert inner[0] == '"';
      assert SkipWhitespace(inner) == inner;
    }
  }

  /** Reading back what `json.dumps` wrote gives the same value. */
  lemma {:induction false} RoundTrip(v: Value)
    ensures Decode(Encode(v)) == Some(v)
  {
    match v
    case Atom(a) => AtomRoundTrip(a);
    case Object(members) => ObjectRoundTrip(members);
  }

  /** No document encodes to the empty text (which Python stores, and reads back as false). */
  lemma {:induction false} EncodeNotEmpty(v: Value)
    ensures Encode(v) != ""
  {
    match v
    case Object(_) =>
    case Atom(a) =>
      if a.Int? {
        var digits := NatText(if a.n < 0 then -a.n else a.n);
        assert |digits| > 0;
      }
  }

  // ---------------------------------------------------------------------------
  // Reading decoded values as Python does

  /** No member after position `i` is named `key`. */
  predicate LastNamed(members: seq<Member>, key: string, i: int)
    requires 0 <= i < |members|
  {
    && members[i].key == key
    && forall j :: i < j < |members| ==> members[j].key != key
  }

  /** The value of the last member named `key`, or Null (Python's None) when there is none. */
  function Lookup(members: seq<Member>, key: string): (r: Scalar)
    ensures (forall i :: 0 <= i < |members| ==> members[i].key != key) ==> r == Null
    ensures forall i :: 0 <= i < |members| && LastNamed(members, key, i) ==> r == members[i].value
  {
    if members == [] then Null
    else
      var n := |members| - 1;
      if members[n].key == key then members[n].value
      else
        var r := Lookup(members[..n], key);
        assert forall i :: 0 <= i < n && LastNamed(members, key, i) ==> LastNamed(members[..n], key, i);
        r
  }

  /** `v.get(key)`: None when `v` is not a dict, where Python raises AttributeError. */
  function Get(v: Value, key: string): (r: Option<Scalar>)
    ensures r.Some? <==> v.Object?
  {
    match v
    case Atom(_) => None
    case Object(members) => Some(Lookup(members, key))
  }

  /** Python's `==` on decoded scalars, where True == 1 and False == 0. */
  predicate SameValue(a: Scalar, b: Scalar)
  {
    match (a, b)
    case (Bool(x), Int(n)) => n == (if x then 1 else 0)
    case (Int(n), Bool(x)) => n == (if x then 1 else 0)
    case _ => a == b
  }

  /** Python's truth value of a decoded value. */
  predicate Truthy(v: Value)
  {
    match v
    case Atom(Null) => false
    case Atom(Bool(b)) => b
    case Atom(Int(n)) => n != 0
    case Atom(Str(s)) => s != ""
    case Object(members) => members != []
  }

  /** How a decoded scalar prints inside a Python f-string (`str()`). */
  function Display(a: Scalar): string
  {
    match a
    case Null => "None"
    case Bool(b) => if b then "True" else "False"
    case Int(n) => IntText(n)
    case Str(s) => s
  }
}
