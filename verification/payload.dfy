/** The approve button's value: the four fields of a suggestion written as a
    JSON object (`json.dumps` of a dict with keys `instance_id`,
    `current_type`, `suggested_type`, `region`, in that order), and a parser
    that reads that object back. */
module Payload {
  import opened Wrappers

  /** The change a button asks for. */
  datatype ActionPayload = ActionPayload(instanceId: string, currentType: string,
                                         suggestedType: string, region: string)

  /** The lower-case hexadecimal digit of `n`. */
  function HexDigit(n: int): (r: char)
    requires 0 <= n < 16
    ensures '0' <= r <= '9' || 'a' <= r <= 'f'
    ensures HexValue(r) == Some(n)
  {
    if n < 10 then ('0' as int + n) as char else ('a' as int + n - 10) as char
  }

  /** The value of a hexadecimal digit of either case. */
  function HexValue(c: char): (r: Option<int>)
    ensures r.Some? <==> '0' <= c <= '9' || 'a' <= c <= 'f' || 'A' <= c <= 'F'
    ensures r.Some? ==> 0 <= r.value < 16
  {
    if '0' <= c <= '9' then Some(c as int - '0' as int)
    else if 'a' <= c <= 'f' then Some(c as int - 'a' as int + 10)
    else if 'A' <= c <= 'F' then Some(c as int - 'A' as int + 10)
    else None
  }

  /** The escape `json.dumps` writes for one character of a string: the
      short escapes where JSON has one, `\u00XX` for the other control
      characters, the character itself otherwise. */
  function EscapeChar(c: char): string
  {
    if c == '"' then "\\\""
    else if c == '\\' then "\\\\"
    else if c == '\n' then "\\n"
    else if c == '\r' then "\\r"
    else if c == '\t' then "\\t"
    else if c == '\U{0008}' then "\\b"
    else if c == '\U{000C}' then "\\f"
    else if c < ' ' then "\\u00" + [HexDigit(c as int / 16), HexDigit(c as int % 16)]
    else [c]
  }

  /** The character a two-character escape `\e` stands for. */
  function Unescape(e: char): Option<char>
  {
    if e == '"' then Some('"')
    else if e == '\\' then Some('\\')
    else if e == '/' then Some('/')
    else if e == 'n' then Some('\n')
    else if e == 'r' then Some('\r')
    else if e == 't' then Some('\t')
    else if e == 'b' then Some('\U{0008}')
    else if e == 'f' then Some('\U{000C}')
    else None
  }

  function Escape(s: string): string
  {
    if |s| == 0 then [] else EscapeChar(s[0]) + Escape(s[1..])
  }

  /** A JSON string literal holding `s`. */
  function Quote(s: string): string
  {
    "\"" + Escape(s) + "\""
  }

  /** One `"key": value` member; `gap` is the whitespace after the colon. */
  function Member(key: string, value: string, gap: string): string
  {
    "\"" + key + "\"" + ":" + gap + Quote(value)
  }

  /** The object with the payload's members in `json.dumps` order; `gap` is
      the whitespace after each `:` and `,`. */
  function Layout(p: ActionPayload, gap: string): string
  {
    "{" + (Member("instance_id", p.instanceId, gap) + ("," + gap +
          (Member("current_type", p.currentType, gap) + ("," + gap +
          (Member("suggested_type", p.suggestedType, gap) + ("," + gap +
          (Member("region", p.region, gap) + "}")))))))
  }

  /** `json.dumps` with its default separators `", "` and `": "`. */
  function Encode(p: ActionPayload): string
  {
    Layout(p, " ")
  }

  predicate IsJsonSpace(c: char)
  {
    c == ' ' || c == '\t' || c == '\n' || c == '\r'
  }

  predicate AllSpace(s: string)
  {
    forall i :: 0 <= i < |s| ==> IsJsonSpace(s[i])
  }

  function SkipSpace(s: string): string
  {
    if |s| > 0 && IsJsonSpace(s[0]) then SkipSpace(s[1..]) else s
  }

  /** After optional whitespace, the character `c`; yields what follows it. */
  function Token(c: char, s: string): Option<string>
  {
    var t := SkipSpace(s);
    if |t| > 0 && t[0] == c then Some(t[1..]) else None
  }

  /** The character of the four hexadecimal digits that open `h`, as a
      `\uXXXX` escape writes it; a code in the surrogate range is refused. */
  function HexQuad(h: string): (r: Option<char>)
    requires |h| >= 4
    ensures r.Some? ==> HexValue(h[0]).Some? && HexValue(h[1]).Some? && HexValue(h[2]).Some? && HexValue(h[3]).Some?
    ensures r.Some? ==> r.value as int == 4096 * HexValue(h[0]).value + 256 * HexValue(h[1]).value
                                          + 16 * HexValue(h[2]).value + HexValue(h[3]).value
    // four digits whose code is not a surrogate are always read
    ensures && HexValue(h[0]).Some? && HexValue(h[1]).Some? && HexValue(h[2]).Some? && HexValue(h[3]).Some?
            && !(0xD800 <= 4096 * HexValue(h[0]).value + 256 * HexValue(h[1]).value
                           + 16 * HexValue(h[2]).value + HexValue(h[3]).value < 0xE000)
            ==> r.Some?
  {
    var d0 :- HexValue(h[0]);
    var d1 :- HexValue(h[1]);
    var d2 :- HexValue(h[2]);
    var d3 :- HexValue(h[3]);
    var code := 4096 * d0 + 256 * d1 + 16 * d2 + d3;
    if 0xD800 <= code < 0xE000 then None else Some(code as char)
  }

  /** The contents of a string literal whose opening quote has been read:
      the decoded text and what follows the closing quote. A raw control
      character is refused, as strict JSON parsing does. */
  function StringBody(s: string): Option<(string, string)>
  {
    if |s| == 0 then None
    else if s[0] == '"' then Some(([], s[1..]))
    else if s[0] == '\\' then
      if |s| < 2 then None
      else if s[1] == 'u' then
        if |s| < 6 then None
        else
          var c :- HexQuad(s[2..]);
          var tail :- StringBody(s[6..]);
          Some(([c] + tail.0, tail.1))
      else
        var c :- Unescape(s[1]);
        var tail :- StringBody(s[2..]);
        Some(([c] + tail.0, tail.1))
    else if s[0] < ' ' then None
    else
      var tail :- StringBody(s[1..]);
      Some(([s[0]] + tail.0, tail.1))
  }

  /** A raw control character inside a string literal is refused. */
  lemma RawControlRefused(c: char, rest: string)
    requires c < ' '
    ensures StringBody([c] + rest) == None
  {
  }

  function JsonString(s: string): Option<(string, string)>
  {
    var t :- Token('"', s);
    StringBody(t)
  }

  /** A member whose key must be `key`: its value and what follows it. */
  function Field(key: string, s: string): Option<(string, string)>
  {
    var k :- JsonString(s);
    if k.0 != key then None
    else
      var t :- Token(':', k.1);
      JsonString(t)
  }

  /** A comma, then a member whose key must be `key`. */
  function NextField(key: string, s: string): Option<(string, string)>
  {
    var t :- Token(',', s);
    Field(key, t)
  }

  /** A closing brace followed by nothing but whitespace. */
  predicate Closes(s: string)
  {
    var t := Token('}', s);
    t.Some? && SkipSpace(t.value) == []
  }

  /** Reads the object `Encode` writes, tolerating any JSON whitespace
      between tokens; anything else is rejected (`json.loads` would raise or
      the change could not be applied). */
  function Decode(s: string): Option<ActionPayload>
  {
    var s0 :- Token('{', s);
    var f1 :- Field("instance_id", s0);
    var f2 :- NextField("current_type", f1.1);
    var f3 :- NextField("suggested_type", f2.1);
    var f4 :- NextField("region", f3.1);
    if Closes(f4.1) then Some(ActionPayload(f1.0, f2.0, f3.0, f4.0)) else None
  }

  /** Reading an escaped string back up to its closing quote gives the
      original string and leaves what follows untouched. */
  lemma {:induction false} StringBodyEscape(s: string, rest: string)
    ensures StringBody(Escape(s) + "\"" + rest) == Some((s, rest))
    decreases |s|
  {
    if |s| == 0 {
      assert Escape(s) + "\"" + rest == "\"" + rest;
    } else {
      var c := s[0];
      StringBodyEscape(s[1..], rest);
      var tail := Escape(s[1..]) + "\"" + rest;
      assert Escape(s) + "\"" + rest == EscapeChar(c) + tail;
      assert s == [c] + s[1..];
      EscapeCharReads(c, tail);
    }
  }

  /** One escaped character in front of a readable string body is read back
      as itself. */
  lemma EscapeCharReads(c: char, tail: string)
    requires StringBody(tail).Some?
    ensures StringBody(EscapeChar(c) + tail) == Some(([c] + StringBody(tail).value.0, StringBody(tail).value.1))
  {
    if c == '"' || c == '\\' || c == '\n' || c == '\r' || c == '\t'
       || c == '\U{0008}' || c == '\U{000C}' {
      assert (EscapeChar(c) + tail)[2..] == tail;
    } else if c < ' ' {
      ControlEscapeReads(c, tail);
    } else {
      assert (EscapeChar(c) + tail)[1..] == tail;
    }
  }

  /** A control character written as `\u00XX` reads back as itself. */
  lemma ControlEscapeReads(c: char, tail: string)
    requires c < ' ' && c != '\n' && c != '\r' && c != '\t' && c != '\U{0008}' && c != '\U{000C}'
    requires StringBody(tail).Some?
    ensures StringBody(EscapeChar(c) + tail) == Some(([c] + StringBody(tail).value.0, StringBody(tail).value.1))
  {
    var hi, lo := c as int / 16, c as int % 16;
    var t := EscapeChar(c) + tail;
    assert EscapeChar(c) == ['\\', 'u', '0', '0', HexDigit(hi), HexDigit(lo)];
    assert t[0] == '\\' && t[1] == 'u';
    assert t[2..][..4] == ['0', '0', HexDigit(hi), HexDigit(lo)];
    assert t[6..] == tail;
    assert HexQuad(t[2..]) == Some(c);
  }

  lemma {:induction false} SkipSpacePrefix(gap: string, t: string)
    requires AllSpace(gap)
    ensures SkipSpace(gap + t) == SkipSpace(t)
    decreases |gap|
  {
    if |gap| == 0 {
      assert gap + t == t;
    } else {
      assert (gap + t)[1..] == gap[1..] + t;
      SkipSpacePrefix(gap[1..], t);
    }
  }

  lemma TokenAfterSpace(c: char, gap: string, rest: string)
    requires AllSpace(gap) && !IsJsonSpace(c)
    ensures Token(c, gap + [c] + rest) == Some(rest)
  {
    assert gap + [c] + rest == gap + ([c] + rest);
    SkipSpacePrefix(gap, [c] + rest);
  }

  lemma JsonStringAfterSpace(gap: string, v: string, rest: string)
    requires AllSpace(gap)
    ensures JsonString(gap + Quote(v) + rest) == Some((v, rest))
  {
    assert gap + Quote(v) + rest == gap + ['"'] + (Escape(v) + "\"" + rest);
    TokenAfterSpace('"', gap, Escape(v) + "\"" + rest);
    StringBodyEscape(v, rest);
  }

  /** A key made of plain characters is written without escapes. */
  lemma {:induction false} EscapePlain(s: string)
    requires forall i :: 0 <= i < |s| ==> 'a' <= s[i] <= 'z' || s[i] == '_'
    ensures Escape(s) == s
    decreases |s|
  {
    if |s| > 0 {
      EscapePlain(s[1..]);
      assert s == [s[0]] + s[1..];
    }
  }

  /** A key made of lower-case letters and underscores, like the four keys here. */
  predicate PlainKey(key: string)
  {
    forall i :: 0 <= i < |key| ==> 'a' <= key[i] <= 'z' || key[i] == '_'
  }

  lemma FieldMember(key: string, v: string, lead: string, gap: string, rest: string)
    requires PlainKey(key)
    requires AllSpace(lead) && AllSpace(gap)
    ensures Field(key, lead + Member(key, v, gap) + rest) == Some((v, rest))
  {
    var value := gap + Quote(v) + rest;
    var after := [':'] + value;
    MemberAsQuote(key, v, gap, lead, rest);
    JsonStringAfterSpace(lead, key, after);
    TokenHere(':', value);
    JsonStringAfterSpace(gap, v, rest);
  }

  /** A member with a plain key, read as the quoted key, a colon and the rest. */
  lemma MemberAsQuote(key: string, v: string, gap: string, lead: string, rest: string)
    requires PlainKey(key)
    ensures lead + Member(key, v, gap) + rest == lead + Quote(key) + ([':'] + (gap + Quote(v) + rest))
  {
    EscapePlain(key);
  }

  lemma TokenHere(c: char, rest: string)
    requires !IsJsonSpace(c)
    ensures Token(c, [c] + rest) == Some(rest)
  {
    assert ([c] + rest)[0] == c;
    assert ([c] + rest)[1..] == rest;
  }

  lemma KeysArePlain()
    ensures PlainKey("instance_id") && PlainKey("current_type")
    ensures PlainKey("suggested_type") && PlainKey("region")
  {
  }

  /** A comma, whitespace and a member: the member's value is read. */
  lemma NextFieldMember(key: string, v: string, gap: string, rest: string)
    requires PlainKey(key) && AllSpace(gap)
    ensures NextField(key, "," + gap + (Member(key, v, gap) + rest)) == Some((v, rest))
  {
    var tail := gap + Member(key, v, gap) + rest;
    assert "," + gap + (Member(key, v, gap) + rest) == [','] + tail;
    TokenHere(',', tail);
    FieldMember(key, v, gap, gap, rest);
  }

  /** Decoding the written object gives back the payload, whatever JSON
      whitespace separates its tokens. */
  lemma DecodeLayout(p: ActionPayload, gap: string)
    requires AllSpace(gap)
    ensures Decode(Layout(p, gap)) == Some(p)
  {
    KeysArePlain();
    var t4 := Member("region", p.region, gap) + "}";
    var t3 := Member("suggested_type", p.suggestedType, gap) + ("," + gap + t4);
    var t2 := Member("current_type", p.currentType, gap) + ("," + gap + t3);
    var t1 := Member("instance_id", p.instanceId, gap) + ("," + gap + t2);
    assert Layout(p, gap) == ['{'] + t1;
    TokenHere('{', t1);
    assert t1 == [] + Member("instance_id", p.instanceId, gap) + ("," + gap + t2);
    FieldMember("instance_id", p.instanceId, [], gap, "," + gap + t2);
    NextFieldMember("current_type", p.currentType, gap, "," + gap + t3);
    NextFieldMember("suggested_type", p.suggestedType, gap, "," + gap + t4);
    NextFieldMember("region", p.region, gap, "}");
    TokenHere('}', []);
    assert "}" == ['}'] + [];
  }

  /** What `Encode` writes, `Decode` reads back unchanged. */
  lemma DecodeEncode(p: ActionPayload)
    ensures Decode(Encode(p)) == Some(p)
  {
    DecodeLayout(p, " ");
  }
}
