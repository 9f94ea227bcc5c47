/** The durable form of the favorites list: `JSON.stringify` of an array of id strings, the
    matching `JSON.parse`, and `loadFavorites`, which reads the list back from storage
    (src/features/crypto/cryptoSlice.js). The text format is the JSON subset the list needs:
    `[`, quoted strings separated by `,`, `]`. Inside a string, `"` and `\` are escaped with a
    backslash, and a control character (below U+0020) is escaped the way `JSON.stringify`
    escapes it; a raw control character is rejected, as `JSON.parse` rejects it. */
module FavoritesCodec {
  import opened Common

  /** The key under which the list is stored. */
  const FavoritesKey: string := "cryptoFavorites"

  /** A control character: one `JSON.parse` refuses to see raw inside a string. */
  predicate IsControl(c: char) {
    c < ' '
  }

  /** The lower-case hexadecimal digit of `d`. */
  function HexDigit(d: nat): (c: char)
    requires d < 16
    ensures HexValue(c) == Some(d)
  {
    if d < 10 then ('0' as int + d) as char else ('a' as int + d - 10) as char
  }

  /** The value of a hexadecimal digit of either case, or `None` for any other character. */
  function HexValue(c: char): (r: Option<nat>)
    ensures r.Some? ==> r.value < 16
  {
    if '0' <= c <= '9' then Some(c as int - '0' as int)
    else if 'a' <= c <= 'f' then Some(c as int - 'a' as int + 10)
    else if 'A' <= c <= 'F' then Some(c as int - 'A' as int + 10)
    else None
  }

  /** How `JSON.stringify` writes one character of a string: `"` and `\` after a backslash;
      backspace, tab, line feed, form feed and carriage return as `\b`, `\t`, `\n`, `\f`,
      `\r`; any other control character as `\u00` and two lower-case hex digits; every other
      character as itself. */
  function EscapeChar(c: char): (e: string)
    ensures !IsControl(c) && c != '"' && c != '\\' ==> e == [c]
    ensures IsControl(c) || c == '"' || c == '\\' ==> |e| >= 2 && e[0] == '\\'
  {
    if c == '"' || c == '\\' then ['\\', c]
    else if c as int == 8 then "\\b"
    else if c as int == 9 then "\\t"
    else if c as int == 10 then "\\n"
    else if c as int == 12 then "\\f"
    else if c as int == 13 then "\\r"
    else if IsControl(c) then "\\u00" + [HexDigit(c as int / 16), HexDigit(c as int % 16)]
    else [c]
  }

  /** The body of a quoted string: each character as `EscapeChar` writes it. */
  function Escape(s: string): (r: string)
    ensures |r| >= |s|
  {
    if s == [] then [] else EscapeChar(s[0]) + Escape(s[1..])
  }

  function Quote(s: string): string {
    "\"" + Escape(s) + "\""
  }

  /** `,"x1","x2",...` — each remaining element preceded by a comma. */
  function Continuation(ids: seq<string>): string {
    if ids == [] then [] else "," + Quote(ids[0]) + Continuation(ids[1..])
  }

  /** `JSON.stringify(ids)`. */
  function Encode(ids: seq<string>): (text: string)
    ensures |text| >= 2 && text[0] == '[' && text[|text| - 1] == ']'
  {
    if ids == [] then "[]" else "[" + Quote(ids[0]) + Continuation(ids[1..]) + "]"
  }

  /** Reads the escape that follows a backslash: the character it stands for and how many
      characters it takes. Accepts the escapes `JSON.parse` accepts, except that a `\u` escape
      must start with `00`. */
  function Unescape(t: string): (r: Option<(char, nat)>)
    ensures r.Some? ==> 1 <= r.value.1 <= |t|
  {
    if t == [] then None
    else if t[0] == '"' || t[0] == '\\' || t[0] == '/' then Some((t[0], 1))
    else if t[0] == 'b' then Some((8 as char, 1))
    else if t[0] == 't' then Some((9 as char, 1))
    else if t[0] == 'n' then Some((10 as char, 1))
    else if t[0] == 'f' then Some((12 as char, 1))
    else if t[0] == 'r' then Some((13 as char, 1))
    else if t[0] == 'u' && |t| >= 5 && t[1] == '0' && t[2] == '0'
            && HexValue(t[3]).Some? && HexValue(t[4]).Some? then
      Some(((16 * HexValue(t[3]).value + HexValue(t[4]).value) as char, 5))
    else None
  }

  /** Reads a string body up to its closing quote; returns the unescaped body and what follows
      the quote. A raw control character or an unknown escape fails. The rest is strictly
      shorter than the input, which makes the list parser terminate. */
  function ParseBody(s: string): (r: Option<(string, string)>)
    ensures r.Some? ==> |r.value.1| < |s|
    decreases |s|
  {
    if s == [] then None
    else if s[0] == '"' then Some(([], s[1..]))
    else if IsControl(s[0]) then None
    else if s[0] == '\\' then
      match Unescape(s[1..])
      case None => None
      case Some((c, n)) =>
        match ParseBody(s[1 + n..])
        case None => None
        case Some((body, rest)) => Some(([c] + body, rest))
    else
      match ParseBody(s[1..])
      case None => None
      case Some((body, rest)) => Some(([s[0]] + body, rest))
  }

  /** Reads one quoted string at the head of `s`. */
  function ParseString(s: string): (r: Option<(string, string)>)
    ensures r.Some? ==> |r.value.1| < |s|
  {
    if s != [] && s[0] == '"' then ParseBody(s[1..]) else None
  }

  /** What follows a string body is the tail of the input. */
  lemma {:induction false} ParseBodySuffix(s: string)
    ensures ParseBody(s).Some? ==> ParseBody(s).value.1 == s[|s| - |ParseBody(s).value.1|..]
    decreases |s|
  {
    if s != [] && s[0] == '\\' && Unescape(s[1..]).Some? {
      ParseBodySuffix(s[1 + Unescape(s[1..]).value.1..]);
    } else if s != [] && s[0] != '"' && !IsControl(s[0]) && s[0] != '\\' {
      ParseBodySuffix(s[1..]);
    }
  }

  /** Reads `"x1","x2",...,"xn"]` to the very end of the text. */
  function ParseElements(s: string): (r: Option<seq<string>>)
    ensures r.Some? ==> |r.value| >= 1 && s != [] && s[|s| - 1] == ']'
    decreases |s|
  {
    match ParseString(s)
    case None => None
    case Some((x, rest)) =>
      ParseBodySuffix(s[1..]);
      if rest == "]" then Some([x])
      else if rest != [] && rest[0] == ',' then
        match ParseElements(rest[1..])
        case None => None
        case Some(xs) => Some([x] + xs)
      else None
  }

  /** `JSON.parse` for the stored list; `None` when the text is not an array of strings. An
      accepted text is bracketed, and it is the empty list exactly when it is `[]`. */
  function Parse(text: string): (r: Option<seq<string>>)
    ensures r.Some? ==> |text| >= 2 && text[0] == '[' && text[|text| - 1] == ']'
    ensures r == Some([]) <==> text == "[]"
  {
    if text == "[]" then Some([])
    else if text != [] && text[0] == '[' then ParseElements(text[1..])
    else None
  }

  /** Unescaping reads back the character an escape was written for. */
  lemma UnescapeEscapeChar(c: char, tail: string)
    requires IsControl(c) || c == '"' || c == '\\'
    ensures Unescape(EscapeChar(c)[1..] + tail) == Some((c, |EscapeChar(c)| - 1))
  {
    var t := EscapeChar(c)[1..] + tail;
    if IsControl(c) && c as int != 8 && c as int != 9 && c as int != 10 && c as int != 12
       && c as int != 13 {
      var hi, lo := c as int / 16, c as int % 16;
      assert EscapeChar(c)[1..] == "u00" + [HexDigit(hi), HexDigit(lo)];
      assert t[0] == 'u' && t[1] == '0' && t[2] == '0' && t[3] == HexDigit(hi) && t[4] == HexDigit(lo);
      assert 16 * hi + lo == c as int;
    }
  }

  /** One written character followed by a body that parses. */
  lemma ParseBodyStep(c: char, tail: string)
    requires ParseBody(tail).Some?
    ensures ParseBody(EscapeChar(c) + tail)
            == Some(([c] + ParseBody(tail).value.0, ParseBody(tail).value.1))
  {
    var t := EscapeChar(c) + tail;
    if IsControl(c) || c == '"' || c == '\\' {
      var e := EscapeChar(c);
      UnescapeEscapeChar(c, tail);
      assert t[0] == '\\';
      assert t[1..] == e[1..] + tail;
      assert t[1 + (|e| - 1)..] == tail;
    } else {
      assert t == [c] + tail;
      assert t[0] == c && t[1..] == tail;
    }
  }

  lemma {:induction false} ParseEscaped(s: string, rest: string)
    ensures ParseBody(Escape(s) + "\"" + rest) == Some((s, rest))
    decreases |s|
  {
    if s == [] {
      var t := Escape(s) + "\"" + rest;
      assert t == ['"'] + rest;
      assert t[1..] == rest;
    } else {
      var tail := Escape(s[1..]) + "\"" + rest;
      ParseEscaped(s[1..], rest);
      Regroup3(EscapeChar(s[0]), Escape(s[1..]), "\"", rest);
      ParseBodyStep(s[0], tail);
      assert [s[0]] + s[1..] == s;
    }
  }

  lemma Regroup3(e: string, es: string, q: string, rest: string)
    ensures e + es + q + rest == e + (es + q + rest)
  {
  }

  lemma ParseQuoted(s: string, rest: string)
    ensures ParseString(Quote(s) + rest) == Some((s, rest))
  {
    ParseEscaped(s, rest);
    assert Quote(s) + rest == ['"'] + (Escape(s) + "\"" + rest);
  }

  lemma {:induction false} ParseContinued(x: string, ids: seq<string>)
    ensures ParseElements(Quote(x) + Continuation(ids) + "]") == Some([x] + ids)
    decreases |ids|
  {
    if ids == [] {
      assert Quote(x) + Continuation(ids) + "]" == Quote(x) + "]";
      ParseQuoted(x, "]");
      assert [x] + ids == [x];
    } else {
      var tail := Quote(ids[0]) + Continuation(ids[1..]) + "]";
      ParseContinued(ids[0], ids[1..]);
      assert [ids[0]] + ids[1..] == ids;
      ContinuationSplit(x, ids);
      ParseNext(x, tail, ids);
    }
  }

  /** The text after the first element of a longer list is a comma and the rest. */
  lemma ContinuationSplit(x: string, ids: seq<string>)
    requires ids != []
    ensures Quote(x) + Continuation(ids) + "]"
            == Quote(x) + ("," + (Quote(ids[0]) + Continuation(ids[1..]) + "]"))
  {
    Regroup(Quote(x), Continuation(ids), Quote(ids[0]), Continuation(ids[1..]));
  }

  lemma Regroup(q: string, c: string, q0: string, rest: string)
    requires c == "," + q0 + rest
    ensures q + c + "]" == q + ("," + (q0 + rest + "]"))
  {
  }

  /** One element followed by a comma and a list that parses. */
  lemma ParseNext(x: string, tail: string, xs: seq<string>)
    requires ParseElements(tail) == Some(xs)
    ensures ParseElements(Quote(x) + ("," + tail)) == Some([x] + xs)
  {
    var rest := "," + tail;
    ParseQuoted(x, rest);
    assert rest != "]" && rest[0] == ',';
    assert rest[1..] == tail;
  }

  /** Round trip: parsing an encoded list gives back exactly that list, order and
      duplicates included. */
  lemma ParseEncode(ids: seq<string>)
    ensures Parse(Encode(ids)) == Some(ids)
  {
    if ids != [] {
      var inner := Quote(ids[0]) + Continuation(ids[1..]) + "]";
      EncodeOpened(ids);
      ParseOpened(inner);
      ParseContinued(ids[0], ids[1..]);
      assert [ids[0]] + ids[1..] == ids;
    }
  }

  /** A non-empty list is stored as `[` followed by its elements and the closing `]`. */
  lemma EncodeOpened(ids: seq<string>)
    requires ids != []
    ensures Encode(ids) == ['['] + (Quote(ids[0]) + Continuation(ids[1..]) + "]")
    ensures |Quote(ids[0]) + Continuation(ids[1..]) + "]"| > 1
  {
    Opened(Quote(ids[0]), Continuation(ids[1..]));
  }

  lemma Opened(q: string, c: string)
    ensures "[" + q + c + "]" == ['['] + (q + c + "]")
  {
  }

  /** A text of more than two characters that opens with `[` is parsed as its elements. */
  lemma ParseOpened(inner: string)
    requires |inner| > 1
    ensures Parse(['['] + inner) == ParseElements(inner)
  {
    var text := ['['] + inner;
    assert |text| > 2;
    assert text[0] == '[' && text[1..] == inner;
  }

  /** `loadFavorites`: the stored list, or `[]` when the key is missing, holds the empty
      (falsy) string, or holds text that does not parse. */
  function LoadFavorites(storage: map<string, string>): (favorites: seq<string>)
    ensures FavoritesKey !in storage ==> favorites == []
    ensures FavoritesKey in storage && Parse(storage[FavoritesKey]).None? ==> favorites == []
    ensures FavoritesKey in storage && Parse(storage[FavoritesKey]).Some? ==>
              favorites == Parse(storage[FavoritesKey]).value
  {
    if FavoritesKey !in storage then []
    else
      var text := storage[FavoritesKey];
      if text == "" then []
      else
        match Parse(text)
        case None => []
        case Some(ids) => ids
  }

  /** Writing a list under the favorites key and loading again yields that list. */
  lemma LoadAfterSave(storage: map<string, string>, ids: seq<string>)
    ensures LoadFavorites(storage[FavoritesKey := Encode(ids)]) == ids
  {
    ParseEncode(ids);
  }

  /** A string with no quote, no backslash and no control character is its own escaped
      form. */
  lemma {:induction false} EscapePlain(s: string)
    requires forall i :: 0 <= i < |s| ==> s[i] != '"' && s[i] != '\\' && !IsControl(s[i])
    ensures Escape(s) == s
    decreases |s|
  {
    if s != [] {
      EscapePlain(s[1..]);
      assert [s[0]] + s[1..] == s;
    }
  }

  /** The stored form of a two-element list. */
  lemma EncodePair(a: string, b: string)
    ensures Encode([a, b]) == "[" + Quote(a) + "," + Quote(b) + "]"
  {
    assert [a, b][1..] == [b];
    assert Continuation([b]) == "," + Quote(b) + Continuation([]);
  }

  /** Ids without quotes, backslashes or control characters are stored verbatim between
      quotes. */
  lemma EncodePlainPair(a: string, b: string)
    requires forall i :: 0 <= i < |a| ==> a[i] != '"' && a[i] != '\\' && !IsControl(a[i])
    requires forall i :: 0 <= i < |b| ==> b[i] != '"' && b[i] != '\\' && !IsControl(b[i])
    ensures Encode([a, b]) == "[\"" + a + "\",\"" + b + "\"]"
  {
    EscapePlain(a);
    EscapePlain(b);
    EncodePair(a, b);
  }

  /** The durable value `["bitcoin","ethereum"]` loads as those two ids, in that order. The
      ids are parameters fixed by the precondition, so that the solver does not unfold the
      literals at every use. */
  lemma LoadsStoredExample(storage: map<string, string>, a: string, b: string)
    requires a == "bitcoin" && b == "ethereum"
    requires FavoritesKey in storage && storage[FavoritesKey] == "[\"" + a + "\",\"" + b + "\"]"
    ensures LoadFavorites(storage) == [a, b]
  {
    EncodePlainPair(a, b);
    LoadAfterSave(storage, [a, b]);
    assert storage[FavoritesKey := Encode([a, b])] == storage;
  }

  /** Text that is not valid encoded data loads as the empty list, without failing. */
  lemma CorruptLoadsEmpty(storage: map<string, string>)
    requires FavoritesKey in storage && storage[FavoritesKey] == "{not json"
    ensures LoadFavorites(storage) == []
  {
  }

  /** A line feed written raw inside a stored id is not valid data: the list loads as empty.
      The letters are parameters fixed by the precondition, so that the solver does not
      unfold the literals at every use. */
  lemma RawControlLoadsEmpty(storage: map<string, string>, a: string, b: string)
    requires a == "a" && b == "b"
    requires FavoritesKey in storage && storage[FavoritesKey] == "[\"" + a + [10 as char] + b + "\"]"
    ensures LoadFavorites(storage) == []
  {
    var text := storage[FavoritesKey];
    assert text[1..] == "\"" + a + [10 as char] + b + "\"]";
    assert text[1..][1..] == a + [10 as char] + b + "\"]";
    assert ParseBody(text[1..][1..][1..]) == None;
  }
}
