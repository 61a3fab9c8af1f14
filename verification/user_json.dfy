/** The signed-in user record and the JSON text under which the session
    keeps it in browser storage: the exact text `JSON.stringify` produces for
    the record's fixed key order, and a reader for that text. */
module UserJson {
  import opened Wrappers

  /** A signed-in user; `token` is absent on records that never had one. */
  datatype User = User(id: string, email: string, name: string, token: Option<string>)

  // ---------------------------------------------------------------------
  // Strings.

  function HexDigit(d: nat): (c: char)
    requires d < 16
  {
    if d < 10 then ('0' as int + d) as char else ('a' as int + d - 10) as char
  }

  /** The value of a hexadecimal digit of either case, if `c` is one. */
  function HexValue(c: char): (r: Option<nat>)
    ensures r.Some? ==> r.value < 16
  {
    if '0' <= c <= '9' then Some(c as int - '0' as int)
    else if 'a' <= c <= 'f' then Some(c as int - 'a' as int + 10)
    else if 'A' <= c <= 'F' then Some(c as int - 'A' as int + 10)
    else None
  }

  lemma HexRoundTrip(d: nat)
    requires d < 16
    ensures HexValue(HexDigit(d)) == Some(d)
  {
  }

  /** How `JSON.stringify` writes one character inside a string literal:
      quote and backslash escaped, the usual short escapes for backspace,
      tab, newline, form feed and carriage return, `\u00xx` with lower-case
      hex for the other control characters, everything else as is. */
  function EscapeChar(c: char): (r: string)
    ensures |r| >= 1
  {
    if c == '"' then "\\\""
    else if c == '\\' then "\\\\"
    else if c == '\U{8}' then "\\b"
    else if c == '\t' then "\\t"
    else if c == '\n' then "\\n"
    else if c == '\U{c}' then "\\f"
    else if c == '\r' then "\\r"
    else if (c as int) < 0x20 then "\\u00" + [HexDigit(c as int / 16), HexDigit(c as int % 16)]
    else [c]
  }

  /** The body of the string literal for `s`, without the quotes. */
  function EscapeString(s: string): string {
    if s == [] then [] else EscapeChar(s[0]) + EscapeString(s[1..])
  }

  /** The character an escape letter after a backslash stands for. */
  function ShortEscape(c: char): Option<char> {
    match c
    case '"' => Some('"')
    case '\\' => Some('\\')
    case '/' => Some('/')
    case 'b' => Some('\U{8}')
    case 'f' => Some('\U{c}')
    case 'n' => Some('\n')
    case 'r' => Some('\r')
    case 't' => Some('\t')
    case _ => None
  }

  /** The character of a `\uXXXX` escape whose four hex digits start `t`.
      Every escape of a surrogate code unit (D800 to DFFF) is refused,
      including each half of a valid surrogate pair. */
  function UnicodeEscape(t: string): Option<char>
    requires |t| >= 4
  {
    match (HexValue(t[0]), HexValue(t[1]), HexValue(t[2]), HexValue(t[3]))
    case (Some(a), Some(b), Some(c), Some(d)) =>
      var v := ((a * 16 + b) * 16 + c) * 16 + d;
      if 0xD800 <= v < 0xE000 then None else Some(v as char)
    case _ => None
  }

  /** Reads the rest of a string literal whose opening quote has been
      consumed: the decoded text and what follows the closing quote, or
      nothing when the literal is malformed or unterminated. */
  function ReadString(t: string): Option<(string, string)>
    decreases |t|
  {
    if t == [] then None
    else if t[0] == '"' then Some(("", t[1..]))
    else if t[0] == '\\' then
      if |t| < 2 then None
      else if t[1] == 'u' then
        if |t| < 6 then None
        else match UnicodeEscape(t[2..6])
          case None => None
          case Some(c) => Prepend(c, ReadString(t[6..]))
      else match ShortEscape(t[1])
        case None => None
        case Some(c) => Prepend(c, ReadString(t[2..]))
    else if (t[0] as int) < 0x20 then None
    else Prepend(t[0], ReadString(t[1..]))
  }

  function Prepend(c: char, r: Option<(string, string)>): (p: Option<(string, string)>)
    ensures p.Some? <==> r.Some?
    ensures p.Some? ==> p.value == ([c] + r.value.0, r.value.1)
  {
    match r
    case None => None
    case Some((s, rest)) => Some(([c] + s, rest))
  }

  lemma EscapeCharRead(c: char, tail: string)
    ensures ReadString(EscapeChar(c) + tail) == Prepend(c, ReadString(tail))
  {
    var e := EscapeChar(c);
    if (c as int) < 0x20 && c !in {'\U{8}', '\t', '\n', '\U{c}', '\r'} {
      var v := c as int;
      HexRoundTrip(v / 16);
      HexRoundTrip(v % 16);
      assert (e + tail)[2..6] == "00" + [HexDigit(v / 16), HexDigit(v % 16)];
      assert (e + tail)[6..] == tail;
    } else if c in {'"', '\\', '\U{8}', '\t', '\n', '\U{c}', '\r'} {
      assert (e + tail)[2..] == tail;
    } else {
      assert (e + tail)[1..] == tail;
    }
  }

  /** The literal `JSON.stringify` writes for a string reads back as that
      string, leaving exactly the text after it. */
  lemma {:induction false} StringRoundTrip(s: string, rest: string)
    ensures ReadString(EscapeString(s) + "\"" + rest) == Some((s, rest))
  {
    if s == [] {
      assert EscapeString(s) + "\"" + rest == "\"" + rest;
    } else {
      StringRoundTrip(s[1..], rest);
      assert EscapeString(s) + "\"" + rest == EscapeChar(s[0]) + (EscapeString(s[1..]) + "\"" + rest);
      EscapeCharRead(s[0], EscapeString(s[1..]) + "\"" + rest);
      assert [s[0]] + s[1..] == s;
    }
  }

  // ---------------------------------------------------------------------
  // The user record.

  /** `JSON.stringify(user)` for a record built with keys id, email, name and
      token in that order; an absent token is omitted. */
  function Encode(u: User): (r: string)
    ensures |r| > 0 && r[0] == '{' && r != "null"
  {
    Entry("{\"id\":\"", u.id,
      Entry(",\"email\":\"", u.email,
        Entry(",\"name\":\"", u.name, TokenPart(u.token) + "}")))
  }

  /** One key with its string value, followed by the rest of the text. */
  function Entry(key: string, value: string, rest: string): string {
    key + EscapeString(value) + "\"" + rest
  }

  function TokenPart(token: Option<string>): string {
    match token
    case None => ""
    case Some(t) => Entry(",\"token\":\"", t, "")
  }

  /** `t` with `prefix` removed, if it starts with it. */
  function After(prefix: string, t: string): (r: Option<string>)
    ensures r.Some? ==> t == prefix + r.value
  {
    if prefix <= t then Some(t[|prefix|..]) else None
  }

  lemma AfterPrefix(prefix: string, rest: string)
    ensures After(prefix, prefix + rest) == Some(rest)
  {
    assert prefix <= prefix + rest;
  }

  /** A key's string value: the key text, then a string literal. */
  function Field(key: string, t: string): (r: Option<(string, string)>)
    ensures r.Some? ==> key <= t
  {
    match After(key, t)
    case None => None
    case Some(r) => ReadString(r)
  }

  lemma FieldRoundTrip(key: string, s: string, rest: string)
    ensures Field(key, Entry(key, s, rest)) == Some((s, rest))
  {
    assert Entry(key, s, rest) == key + (EscapeString(s) + "\"" + rest);
    AfterPrefix(key, EscapeString(s) + "\"" + rest);
    StringRoundTrip(s, rest);
  }

  /** Reads a user object laid out as `Encode` writes it: the same keys in
      the same order, with no whitespace. Inside the string values any JSON
      string escape is accepted, including `\/` and `\uXXXX` in either
      case, except a `\u` escape of a surrogate code unit: an escaped
      surrogate pair is refused. Every other text is refused. */
  function Decode(t: string): (r: Option<User>)
    ensures r.Some? ==> |t| > 0 && t[0] == '{'
    ensures t == "" || t == "null" ==> r.None?
  {
    match Field("{\"id\":\"", t)
    case None => None
    case Some((id, t1)) =>
      match Field(",\"email\":\"", t1)
      case None => None
      case Some((email, t2)) =>
        match Field(",\"name\":\"", t2)
        case None => None
        case Some((name, t3)) =>
          if t3 == "}" then Some(User(id, email, name, None))
          else match Field(",\"token\":\"", t3)
            case None => None
            case Some((token, t4)) => if t4 == "}" then Some(User(id, email, name, Some(token))) else None
  }

  /** Storing a user and reading the text back gives the same user. */
  lemma RoundTrip(u: User)
    ensures Decode(Encode(u)) == Some(u)
  {
    var t3 := TokenPart(u.token) + "}";
    var t2 := Entry(",\"name\":\"", u.name, t3);
    var t1 := Entry(",\"email\":\"", u.email, t2);
    FieldRoundTrip("{\"id\":\"", u.id, t1);
    FieldRoundTrip(",\"email\":\"", u.email, t2);
    FieldRoundTrip(",\"name\":\"", u.name, t3);
    if u.token.Some? {
      var k4 := ",\"token\":\"";
      assert t3 == Entry(k4, u.token.value, "}");
      FieldRoundTrip(k4, u.token.value, "}");
      assert t3[0] == ',';
    }
  }
}
