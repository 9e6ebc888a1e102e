/**
  The text a tag list is stored as: Python's `json.dumps` of a list of
  strings with default settings (`ensure_ascii=True`, item separator `", "`).
  `search_by_tag` runs its LIKE test over this text, not over the list.
*/
module TagJson {
  import SqlLike

  /** Lower-case hexadecimal digit, as `'\\u{0:04x}'` writes it. */
  function HexDigit(n: nat): char
    requires n < 16
  {
    "0123456789abcdef"[n]
  }

  /** `\uXXXX` for one UTF-16 code unit. */
  function UnicodeEscape(n: nat): string
    requires n < 0x1_0000
  {
    ['\\', 'u', HexDigit(n / 0x1000), HexDigit(n / 0x100 % 0x10), HexDigit(n / 0x10 % 0x10), HexDigit(n % 0x10)]
  }

  /** A character that `json.dumps` copies unchanged: printable ASCII other than `"` and `\`. */
  predicate Verbatim(c: char) {
    ' ' <= c <= '~' && c != '"' && c != '\\'
  }

  /** How `json.dumps` writes one character inside a string literal. */
  function EscapeChar(c: char): string {
    var n := c as int;
    if c == '"' then "\\\""
    else if c == '\\' then "\\\\"
    else if c == '\n' then "\\n"
    else if c == '\r' then "\\r"
    else if c == '\t' then "\\t"
    else if n == 0x08 then "\\b"
    else if n == 0x0C then "\\f"
    else if ' ' <= c <= '~' then [c]
    else if n < 0x1_0000 then UnicodeEscape(n)
    else
      // Outside the Basic Multilingual Plane: a UTF-16 surrogate pair.
      var v := n - 0x1_0000;
      UnicodeEscape(0xD800 + v / 0x400) + UnicodeEscape(0xDC00 + v % 0x400)
  }

  function Escape(s: string): string {
    if |s| == 0 then "" else EscapeChar(s[0]) + Escape(s[1..])
  }

  /** A string literal as `json.dumps` writes it. */
  function Quote(s: string): string {
    "\"" + Escape(s) + "\""
  }

  function JoinQuoted(tags: seq<string>): string {
    if |tags| == 0 then ""
    else if |tags| == 1 then Quote(tags[0])
    else Quote(tags[0]) + ", " + JoinQuoted(tags[1..])
  }

  /** The stored text of a tag list. */
  function SerializeTags(tags: seq<string>): (text: string)
    ensures |text| >= 2 && text[0] == '[' && text[|text| - 1] == ']'
  {
    "[" + JoinQuoted(tags) + "]"
  }

  /** A tag of printable ASCII without quotes or backslashes is written as itself. */
  predicate Plain(t: string) {
    forall k :: 0 <= k < |t| ==> Verbatim(t[k])
  }

  lemma {:induction false} PlainEscapesToItself(t: string)
    requires Plain(t)
    ensures Escape(t) == t
    decreases |t|
  {
    if |t| > 0 {
      assert Plain(t[1..]) by {
        forall k | 0 <= k < |t[1..]| ensures Verbatim(t[1..][k]) {
          assert t[1..][k] == t[k + 1];
        }
      }
      PlainEscapesToItself(t[1..]);
      assert Verbatim(t[0]);
      assert t == [t[0]] + t[1..];
    }
  }

  /** Any text holding `x + y + z` verbatim holds `y` verbatim. */
  lemma InfixOfConcat(x: string, y: string, z: string)
    ensures SqlLike.Infix(x + y + z, y)
  {
    var s := x + y + z;
    assert s[|x|..] == y + z;
    assert SqlLike.StartsWith(s[|x|..], y);
  }

  /** An infix of an infix is an infix. */
  lemma InfixWiden(x: string, s: string, z: string, t: string)
    requires SqlLike.Infix(s, t)
    ensures SqlLike.Infix(x + s + z, t)
  {
    var i :| 0 <= i <= |s| && SqlLike.StartsWith(s[i..], t);
    var w := x + s + z;
    assert w[|x| + i..][..|t|] == s[i..][..|t|];
  }

  /** A text holds its own prefix verbatim. */
  lemma PrefixIsInfix(a: string, b: string)
    ensures SqlLike.Infix(a + b, a)
  {
    assert (a + b)[0..][..|a|] == a;
  }

  /** The first tag of a list appears, quoted and escaped, in the list's stored text. */
  lemma HeadInJoin(tags: seq<string>)
    requires |tags| > 0
    ensures SqlLike.Infix(JoinQuoted(tags), Quote(tags[0]))
  {
    var rest := if |tags| == 1 then "" else ", " + JoinQuoted(tags[1..]);
    assert JoinQuoted(tags) == Quote(tags[0]) + rest;
    PrefixIsInfix(Quote(tags[0]), rest);
  }

  /** Whatever appears in the stored text of the later tags appears in that of the whole list. */
  lemma TailInJoin(tags: seq<string>, u: string)
    requires |tags| > 1 && SqlLike.Infix(JoinQuoted(tags[1..]), u)
    ensures SqlLike.Infix(JoinQuoted(tags), u)
  {
    InfixWiden(Quote(tags[0]) + ", ", JoinQuoted(tags[1..]), "", u);
    assert Quote(tags[0]) + ", " + JoinQuoted(tags[1..]) + "" == JoinQuoted(tags);
  }

  /** Every plain tag of a list appears, quoted, in the list's stored text. */
  lemma {:induction false} PlainTagInJoin(tags: seq<string>, t: string)
    requires t in tags && Plain(t)
    ensures SqlLike.Infix(JoinQuoted(tags), "\"" + t + "\"")
    decreases |tags|
  {
    if tags[0] == t {
      PlainEscapesToItself(t);
      HeadInJoin(tags);
    } else {
      assert t in tags[1..];
      PlainTagInJoin(tags[1..], t);
      TailInJoin(tags, "\"" + t + "\"");
    }
  }

  /** A plain tag of a list occurs verbatim in the list's stored text. */
  lemma PlainTagSerialized(tags: seq<string>, t: string)
    requires t in tags && Plain(t)
    ensures SqlLike.Infix(SerializeTags(tags), t)
  {
    PlainTagInJoin(tags, t);
    InfixWiden("[", JoinQuoted(tags), "]", "\"" + t + "\"");
    var q := "\"" + t + "\"";
    var s := SerializeTags(tags);
    var i :| 0 <= i <= |s| && SqlLike.StartsWith(s[i..], q);
    assert s[i + 1..][..|t|] == q[1..1 + |t|] == t;
  }
}
