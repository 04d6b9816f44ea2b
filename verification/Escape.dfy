/** The two JSON string escapers: the bounded one of handlers.c, which fills a fixed buffer and
    cuts what does not fit, and json_escape of protocol.c. A C string is the text before its
    terminating NUL. */
module Escaping {
  import opened Options

  const NUL := '\0'
  const BACKSLASH := '\\'

  /** The escape of one character; only json_escape (tabs) escapes the tab. */
  function Escape(c: char, tabs: bool): (e: string)
    ensures 1 <= |e| <= 2
  {
    if c == '"' then "\\\""
    else if c == '\\' then "\\\\"
    else if c == '\n' then "\\n"
    else if c == '\r' then "\\r"
    else if tabs && c == '\t' then "\\t"
    else [c]
  }

  function Escaped(s: string, tabs: bool): string {
    if s == [] then [] else Escape(s[0], tabs) + Escaped(s[1..], tabs)
  }

  // ----- reading it back -----

  datatype Text = Text(value: string) | Malformed

  /** The character a two-character escape stands for (section 7 of RFC 8259). */
  function Unescape(c: char): Option<char> {
    if c == '"' || c == BACKSLASH || c == '/' then Some(c)
    else if c == 'n' then Some('\n')
    else if c == 'r' then Some('\r')
    else if c == 't' then Some('\t')
    else if c == 'b' then Some(8 as char)
    else if c == 'f' then Some(12 as char)
    else None
  }

  /** The grammar leaves these characters no unescaped form. */
  predicate IsControl(c: char) { c < ' ' }

  /** A left-to-right reader of string contents (escapes of the uXXXX form apart). It refuses a
      bare quote and a backslash that starts no escape; a strict one also refuses raw controls. */
  function Unescaped(t: string, strict: bool): Text {
    if t == [] then Text([])
    else if t[0] == '"' || (strict && IsControl(t[0])) then Malformed
    else if t[0] != BACKSLASH then Before(t[0], Unescaped(t[1..], strict))
    else if |t| == 1 || Unescape(t[1]).None? then Malformed
    else Before(Unescape(t[1]).value, Unescaped(t[2..], strict))
  }

  function Before(c: char, rest: Text): Text {
    if rest.Malformed? then Malformed else Text([c] + rest.value)
  }

  /** A control character the escaper lets through as it is. */
  ghost predicate LeavesControl(s: string, tabs: bool) {
    exists c <- s :: IsLeft(c, tabs)
  }

  predicate IsLeft(c: char, tabs: bool) { c < ' ' && c != '\n' && c != '\r' && !(tabs && c == '\t') }

  /** Which characters are written in two. */
  lemma EscapeMeans(c: char, tabs: bool)
    ensures |Escape(c, tabs)| == 2 <==>
      c == '"' || c == BACKSLASH || c == '\n' || c == '\r' || (tabs && c == '\t')
    ensures if |Escape(c, tabs)| == 2
      then Escape(c, tabs)[0] == BACKSLASH && Unescape(Escape(c, tabs)[1]) == Some(c)
      else Escape(c, tabs) == [c]
  {}

  lemma FirstOrLater(s: string, tabs: bool)
    requires s != []
    ensures LeavesControl(s, tabs) <==> IsLeft(s[0], tabs) || LeavesControl(s[1..], tabs)
  {
    assert forall c :: c in s <==> c == s[0] || c in s[1..];
    if LeavesControl(s[1..], tabs) {
      var c :| c in s[1..] && IsLeft(c, tabs);
      assert c in s;
    }
  }

  lemma OneRoundTrip(c: char, rest: string, tabs: bool, strict: bool)
    ensures Unescaped(Escape(c, tabs) + rest, strict)
         == if strict && IsControl(c) && Escape(c, tabs) == [c] then Malformed else Before(c, Unescaped(rest, strict))
  {
    var e := Escape(c, tabs);
    assert (e + rest)[|e|..] == rest && (e + rest)[0] == e[0];
    if |e| == 2 {
      assert (e + rest)[1] == e[1];
    }
  }

  /** Unescaping gives the source back; for a strict reader exactly when the source holds no
      control character beyond those the escaper knows. */
  lemma {:induction false} RoundTrip(s: string, tabs: bool, strict: bool)
    ensures Unescaped(Escaped(s, tabs), strict)
         == if strict && LeavesControl(s, tabs) then Malformed else Text(s)
  {
    if s != [] {
      OneRoundTrip(s[0], Escaped(s[1..], tabs), tabs, strict);
      RoundTrip(s[1..], tabs, strict);
      assert s == [s[0]] + s[1..];
      EscapeMeans(s[0], tabs);
      FirstOrLater(s, tabs);
    }
  }

  /** Escaped text holds no newline and, from a C string, no NUL: it travels as part of one line
      and is its own C string. */
  lemma {:induction false} EscapedIsOneLine(s: string, tabs: bool)
    ensures '\n' !in Escaped(s, tabs) && '\r' !in Escaped(s, tabs)
    ensures NUL !in s ==> NUL !in Escaped(s, tabs)
    ensures |s| <= |Escaped(s, tabs)| <= 2 * |s|
  {
    if s != [] { EscapedIsOneLine(s[1..], tabs); }
  }

  lemma {:induction false} EscapedAppend(s: string, t: string, tabs: bool)
    ensures Escaped(s + t, tabs) == Escaped(s, tabs) + Escaped(t, tabs)
  {
    if s == [] {
      assert s + t == t;
    } else {
      assert (s + t)[1..] == s[1..] + t;
      EscapedAppend(s[1..], t, tabs);
    }
  }

  lemma EscapedStep(s: string, k: nat, tabs: bool)
    requires k < |s|
    ensures Escaped(s[..k + 1], tabs) == Escaped(s[..k], tabs) + Escape(s[k], tabs)
  {
    assert s[..k + 1] == s[..k] + [s[k]];
    EscapedAppend(s[..k], [s[k]], tabs);
    assert Escaped([s[k]], tabs) == Escape(s[k], tabs) + Escaped([], tabs);
  }

  // ----- the bounded buffer -----

  /** A buffer of this size keeps the first k characters: what they become fits, and k is the
      first place where the source ends or fewer than two bytes are left before the NUL. */
  ghost predicate CutAt(s: string, size: nat, k: nat) {
    && k <= |s|
    && |Escaped(s[..k], false)| < size
    && (k < |s| ==> size <= |Escaped(s[..k], false)| + 2)
    && (0 < k ==> |Escaped(s[..k - 1], false)| + 2 < size)
  }

  lemma {:induction false} Lengthens(s: string, j: nat, k: nat)
    requires j <= k <= |s|
    ensures |Escaped(s[..j], false)| + (k - j) <= |Escaped(s[..k], false)|
    decreases k
  {
    if j < k {
      Lengthens(s, j, k - 1);
      EscapedStep(s, k - 1, false);
    }
  }

  /** The cut is unique, wastes at most one byte, splits no escape, and is no cut at all exactly
      when everything before the last character leaves two bytes; an escaped length of at most
      size - 2 always does. */
  lemma CutProperties(s: string, size: nat, k: nat)
    requires CutAt(s, size, k)
    ensures forall j: nat | CutAt(s, size, j) :: j == k
    ensures k == |s| || size - 2 <= |Escaped(s[..k], false)| < size
    ensures Unescaped(Escaped(s[..k], false), false) == Text(s[..k]) && s[..k] <= s
    ensures k == |s| <==> s == [] || |Escaped(s[..|s| - 1], false)| + 2 < size
    ensures |Escaped(s, false)| + 2 <= size ==> k == |s|
  {
    forall j: nat | CutAt(s, size, j) ensures j == k {
      if j < k { Lengthens(s, j, k - 1); }
      if k < j { Lengthens(s, k, j - 1); }
    }
    RoundTrip(s[..k], false, false);
    if k < |s| {
      Lengthens(s, k, |s| - 1);
      Lengthens(s, k, |s|);
      assert s[..|s|] == s;
    }
  }

  /** The text up to the first NUL. */
  function CString(buffer: seq<char>): string {
    if buffer == [] || buffer[0] == NUL then [] else [buffer[0]] + CString(buffer[1..])
  }

  lemma {:induction false} TerminatedAt(buffer: seq<char>, text: string)
    requires NUL !in text && |text| < |buffer| && buffer[..|text|] == text && buffer[|text|] == NUL
    ensures CString(buffer) == text
  {
    if text != [] {
      assert buffer[1..][..|text| - 1] == text[1..];
      assert buffer[0] == text[0];
      TerminatedAt(buffer[1..], text[1..]);
    }
  }

  /** One or two bytes, written at the moving position. */
  method PutEscape(dst: array<char>, d: nat, c: char, tabs: bool) returns (written: nat)
    requires d + |Escape(c, tabs)| <= dst.Length
    modifies dst
    ensures written == |Escape(c, tabs)| && dst[..d + written] == old(dst[..d]) + Escape(c, tabs)
  {
    var e := Escape(c, tabs);
    dst[d] := e[0];
    if |e| == 2 { dst[d + 1] := e[1]; }
    written := |e|;
    assert dst[..d] == old(dst[..d]) && dst[d..d + written] == e;
  }

  /** escape_json_string: the loop of the source over the characters of src, with dst written
      through a moving position. */
  method EscapeJsonString(src: Option<string>, dst: array<char>)
    requires 0 < dst.Length
    requires src.Some? ==> NUL !in src.value
    modifies dst
    ensures src.None? ==> CString(dst[..]) == []
    ensures src.Some? ==>
      exists k: nat :: CutAt(src.value, dst.Length, k) && CString(dst[..]) == Escaped(src.value[..k], false)
  {
    if src.None? {
      dst[0] := NUL;
      return;
    }
    var s := src.value;
    var d, i, remaining := 0, 0, dst.Length - 1;
    while i < |s| && remaining > 1
      invariant 0 <= i <= |s| && 0 <= d && d + remaining == dst.Length - 1 && 0 <= remaining
      invariant dst[..d] == Escaped(s[..i], false)
      invariant 0 < i ==> |Escaped(s[..i - 1], false)| + 2 < dst.Length
    {
      EscapedStep(s, i, false);
      var written := PutEscape(dst, d, s[i], false);
      d, remaining := d + written, remaining - written;
      i := i + 1;
    }
    dst[d] := NUL;
    assert CutAt(s, dst.Length, i);
    EscapedIsOneLine(s[..i], false);
    TerminatedAt(dst[..], Escaped(s[..i], false));
  }

  /** json_escape: twice the length is always room enough. */
  method JsonEscape(str: Option<string>) returns (escaped: Option<array<char>>)
    requires str.Some? ==> NUL !in str.value
    ensures escaped.None? <==> str.None?
    ensures str.Some? ==> fresh(escaped.value) && CString(escaped.value[..]) == Escaped(str.value, true)
  {
    if str.None? { return None; }
    var s := str.value;
    var buffer := new char[|s| * 2 + 1];
    var dst := 0;
    for src := 0 to |s|
      invariant dst <= 2 * src && 0 <= dst
      invariant buffer[..dst] == Escaped(s[..src], true)
    {
      EscapedStep(s, src, true);
      var written := PutEscape(buffer, dst, s[src], true);
      dst := dst + written;
    }
    buffer[dst] := NUL;
    assert s[..|s|] == s;
    EscapedIsOneLine(s, true);
    TerminatedAt(buffer[..], Escaped(s, true));
    return Some(buffer);
  }
}
