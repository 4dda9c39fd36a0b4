/** Field paths: `$`, then `[<JSON string>]` for an object member and `[]` for an array
    element, and a decoder that reads the segments back. */
module JsonPath {
  import opened Std

  datatype Seg = Key(name: string) | Elem

  function HexDigit(n: int): char
    requires 0 <= n < 16
  {
    "0123456789abcdef"[n]
  }

  function HexValue(c: char): Option<int> {
    if '0' <= c <= '9' then Some(c as int - '0' as int)
    else if 'a' <= c <= 'f' then Some(c as int - 'a' as int + 10)
    else None
  }

  /** One character as json.dumps(ensure_ascii=False) writes it. */
  function Escape(c: char): string {
    var n := c as int;
    if n == 34 then "\\\""
    else if n == 92 then "\\\\"
    else if n == 10 then "\\n"
    else if n == 13 then "\\r"
    else if n == 9 then "\\t"
    else if n == 12 then "\\f"
    else if n == 8 then "\\b"
    else if n < 32 then "\\u00" + [HexDigit(n / 16), HexDigit(n % 16)]
    else [c]
  }

  function EscapeAll(s: string): string {
    if s == "" then "" else Escape(s[0]) + EscapeAll(s[1..])
  }

  /** json.dumps(s, ensure_ascii=False) */
  function Dumps(s: string): string { "\"" + EscapeAll(s) + "\"" }

  function ObjectPathSegment(path: string, key: string): string {
    path + "[" + Dumps(key) + "]"
  }

  function ElementPath(path: string): string { path + "[]" }

  function SegText(s: Seg): string {
    match s
    case Key(name) => "[" + Dumps(name) + "]"
    case Elem => "[]"
  }

  function SegsText(segs: seq<Seg>): string {
    if segs == [] then "" else SegText(segs[0]) + SegsText(segs[1..])
  }

  function Path(segs: seq<Seg>): string { "$" + SegsText(segs) }

  lemma {:induction false} SegsTextAppend(segs: seq<Seg>, s: Seg)
    ensures SegsText(segs + [s]) == SegsText(segs) + SegText(s)
  {
    hide SegText;
    if segs == [] {
      assert [s][1..] == [];
      assert SegText(s) + "" == SegText(s) && "" + SegText(s) == SegText(s);
    } else {
      var first, rest, last := SegText(segs[0]), SegsText(segs[1..]), SegText(s);
      assert (segs + [s])[1..] == segs[1..] + [s];
      SegsTextAppend(segs[1..], s);
      assert first + (rest + last) == (first + rest) + last;
    }
  }

  /** The incremental way the walks build paths agrees with the path of the segment list. */
  lemma PathExtends(segs: seq<Seg>, key: string)
    ensures Path(segs + [Key(key)]) == ObjectPathSegment(Path(segs), key)
    ensures Path(segs + [Elem]) == ElementPath(Path(segs))
  {
    hide SegsText, Dumps;
    SegsTextAppend(segs, Key(key));
    SegsTextAppend(segs, Elem);
    var text := SegsText(segs);
    assert "$" + (text + SegText(Key(key))) == ("$" + text) + SegText(Key(key));
    assert ("$" + text) + ("[" + Dumps(key) + "]") == ("$" + text) + "[" + Dumps(key) + "]";
    assert "$" + (text + "[]") == ("$" + text) + "[]";
  }

  /** Neither a quote, nor a backslash, nor a control character. */
  predicate IsPlain(c: char) { c as int >= 32 && c as int != 34 && c as int != 92 }

  lemma PlainCharacterIsKept(c: char)
    requires IsPlain(c)
    ensures Escape(c) == [c]
  {
  }

  lemma {:induction false} PlainIsKept(s: string)
    requires forall c :: c in s ==> IsPlain(c)
    ensures EscapeAll(s) == s
  {
    hide Escape, IsPlain;
    if s != "" {
      PlainCharacterIsKept(s[0]);
      PlainIsKept(s[1..]);
      assert s == [s[0]] + s[1..];
    }
  }

  /** A path is `$` and, for each segment, its key between quotes and brackets, or a pair of
      brackets; a key without quotes, backslashes and control characters is written as it is. */
  lemma PathIsWritten(segs: seq<Seg>, key: string)
    ensures Path([]) == "$"
    ensures Path(segs + [Elem]) == Path(segs) + "[]"
    ensures (forall c :: c in key ==> IsPlain(c)) ==> Path(segs + [Key(key)]) == Path(segs) + "[\"" + key + "\"]"
  {
    hide SegsText, IsPlain, EscapeAll;
    PathExtends(segs, key);
    NoSegsText();
    if forall c :: c in key ==> IsPlain(c) {
      PlainIsKept(key);
      var p := Path(segs);
      assert p + "[" + ("\"" + key + "\"") + "]" == p + "[\"" + key + "\"]";
    }
  }

  lemma NoSegsText()
    ensures SegsText([]) == ""
  {
  }

  // ---- decoder ----

  /** The character after a backslash, and how much text its escape takes. */
  function ReadEscape(t: string): (r: Option<(char, nat)>)
    requires |t| >= 1 && t[0] == '\\'
    ensures r.Some? ==> 2 <= r.value.1 <= |t|
  {
    if |t| < 2 then None
    else if t[1] == '\"' || t[1] == '\\' then Some((t[1], 2))
    else if t[1] == 'n' then Some((10 as char, 2))
    else if t[1] == 'r' then Some((13 as char, 2))
    else if t[1] == 't' then Some((9 as char, 2))
    else if t[1] == 'f' then Some((12 as char, 2))
    else if t[1] == 'b' then Some((8 as char, 2))
    else if t[1] == 'u' && |t| >= 6 && t[2] == '0' && t[3] == '0' then
      match (HexValue(t[4]), HexValue(t[5]))
      case (Some(a), Some(b)) => Some(((16 * a + b) as char, 6))
      case _ => None
    else None
  }

  /** The rest of a JSON string after its opening quote: its value, and what follows it. */
  function ReadString(t: string): (r: Option<(string, string)>)
    ensures r.Some? ==> |r.value.1| < |t|
  {
    if t == "" then None
    else if t[0] == '\"' then Some(("", t[1..]))
    else if t[0] == '\\' then
      match ReadEscape(t)
      case None => None
      case Some((c, n)) =>
        (match ReadString(t[n..])
         case None => None
         case Some((s, rest)) => Some(([c] + s, rest)))
    else
      match ReadString(t[1..])
      case None => None
      case Some((s, rest)) => Some(([t[0]] + s, rest))
  }

  function ReadSegs(t: string): Option<seq<Seg>>
    decreases |t|
  {
    if t == "" then Some([])
    else if |t| < 2 || t[0] != '[' then None
    else if t[1] == ']' then
      match ReadSegs(t[2..])
      case None => None
      case Some(segs) => Some([Elem] + segs)
    else if t[1] == '\"' then
      match ReadString(t[2..])
      case None => None
      case Some((key, rest)) =>
        if rest == "" || rest[0] != ']' then None
        else
          match ReadSegs(rest[1..])
          case None => None
          case Some(segs) => Some([Key(key)] + segs)
    else None
  }

  function Decode(path: string): Option<seq<Seg>> {
    if path == "" || path[0] != '$' then None else ReadSegs(path[1..])
  }

  lemma ReadEscaped(c: char, rest: string)
    ensures Escape(c)[0] != '\"'
    ensures Escape(c)[0] == '\\' ==> ReadEscape(Escape(c) + rest) == Some((c, |Escape(c)|))
    ensures Escape(c)[0] != '\\' ==> Escape(c) == [c]
  {
    var n := c as int;
    if n < 32 && n != 10 && n != 13 && n != 9 && n != 12 && n != 8 {
      var t := Escape(c) + rest;
      assert t[4] == HexDigit(n / 16) && t[5] == HexDigit(n % 16);
      assert HexValue(HexDigit(n / 16)) == Some(n / 16);
      assert HexValue(HexDigit(n % 16)) == Some(n % 16);
    }
  }

  lemma {:induction false} ReadDumped(key: string, rest: string)
    ensures ReadString(EscapeAll(key) + "\"" + rest) == Some((key, rest))
  {
    var t := EscapeAll(key) + "\"" + rest;
    if key == "" {
      assert t == "\"" + rest;
    } else {
      var e, more := Escape(key[0]), EscapeAll(key[1..]) + "\"" + rest;
      assert t == e + more;
      ReadEscaped(key[0], more);
      ReadDumped(key[1..], rest);
      assert t[|e|..] == more;
      assert [key[0]] + key[1..] == key;
    }
  }

  lemma ReadElemThen(more: string)
    ensures ReadSegs("[]" + more) == match ReadSegs(more) case None => None case Some(segs) => Some([Elem] + segs)
  {
  }

  lemma KeyStarts(name: string, more: string)
    ensures var t := SegText(Key(name)) + more;
            |t| >= 2 && t[0] == '[' && t[1] == '\"' && t[2..] == EscapeAll(name) + "\"" + ("]" + more)
  {
    hide EscapeAll;
    assert SegText(Key(name)) + more == ['[', '\"'] + (EscapeAll(name) + "\"" + ("]" + more));
  }

  lemma ReadKeyThen(name: string, more: string)
    ensures ReadSegs(SegText(Key(name)) + more) == match ReadSegs(more) case None => None case Some(segs) =>
              Some([Key(name)] + segs)
  {
    hide SegText, EscapeAll, ReadString;
    var rest := "]" + more;
    KeyStarts(name, more);
    ReadDumped(name, rest);
    assert rest[1..] == more;
  }

  lemma ReadSegThen(s: Seg, more: string, segs: seq<Seg>)
    requires ReadSegs(more) == Some(segs)
    ensures ReadSegs(SegText(s) + more) == Some([s] + segs)
  {
    hide ReadSegs, EscapeAll;
    if s.Key? {
      ReadKeyThen(s.name, more);
    } else {
      ReadElemThen(more);
    }
  }

  lemma ReadNothing()
    ensures ReadSegs(SegsText([])) == Some([])
  {
  }

  lemma {:induction false} ReadSegsText(segs: seq<Seg>)
    ensures ReadSegs(SegsText(segs)) == Some(segs)
  {
    hide ReadSegs, SegText;
    if segs == [] {
      ReadNothing();
    } else {
      ReadSegsText(segs[1..]);
      ReadSegThen(segs[0], SegsText(segs[1..]), segs[1..]);
      assert [segs[0]] + segs[1..] == segs;
    }
  }

  /** Decoding a path gives back exactly the keys and array steps it was made from,
      whatever characters the keys hold. */
  lemma PathsRoundTrip(segs: seq<Seg>)
    ensures Decode(Path(segs)) == Some(segs)
  {
    ReadSegsText(segs);
    assert Path(segs)[1..] == SegsText(segs);
  }

  /** Different segment lists never share a path. */
  lemma PathsAreInjective(a: seq<Seg>, b: seq<Seg>)
    requires Path(a) == Path(b)
    ensures a == b
  {
    PathsRoundTrip(a);
    PathsRoundTrip(b);
  }

  /** No control character survives in a path. */
  ghost predicate Printable(s: string) { forall i :: 0 <= i < |s| ==> s[i] as int >= 32 }

  lemma {:induction false} EscapedIsPrintable(s: string)
    ensures Printable(EscapeAll(s))
  {
    if s != "" {
      EscapedIsPrintable(s[1..]);
      assert Printable(Escape(s[0]));
    }
  }

  lemma SegIsPrintable(s: Seg)
    ensures Printable(SegText(s))
  {
    hide EscapeAll;
    if s.Key? {
      EscapedIsPrintable(s.name);
    }
  }

  lemma {:induction false} SegsTextIsPrintable(segs: seq<Seg>)
    ensures Printable(SegsText(segs))
  {
    hide SegText;
    if segs != [] {
      SegsTextIsPrintable(segs[1..]);
      SegIsPrintable(segs[0]);
    }
  }

  lemma PathIsPrintable(segs: seq<Seg>)
    ensures Printable(Path(segs))
  {
    SegsTextIsPrintable(segs);
  }
}
