/** Quoting and reading text in XML, Common/Xml.c.  A C string in memory is a sequence of characters that ends with
    the only zero; a pointer into it is an index. */
module Xml {

  const Zero: char := '\0'

  datatype Pointer = Null | At(i: nat)

  predicate NoZero(s: string) { forall i :: 0 <= i < |s| ==> s[i] != Zero }

  predicate IsText(xml: string) { |xml| > 0 && xml[|xml| - 1] == Zero && forall i :: 0 <= i < |xml| - 1 ==> xml[i] != Zero }

  // ---- Quoting ----

  predicate Special(c: char) { c == '&' || c == '<' || c == '>' }

  function QuotedChar(c: char): (q: string)
    ensures |q| > 0
  {
    if c == '&' then "&amp;" else if c == '>' then "&gt;" else if c == '<' then "&lt;" else [c]
  }

  function Quoted(s: string): string {
    if s == "" then "" else Quoted(s[..|s| - 1]) + QuotedChar(s[|s| - 1])
  }

  /** Whether a string begins with another one at i. */
  predicate NameAt(xml: string, i: nat, name: string) {
    i + |name| <= |xml| && forall k :: 0 <= k < |name| ==> xml[i + k] == name[k]
  }

  predicate StartsWith(s: string, prefix: string) { NameAt(s, 0, prefix) }

  /** Text with entities replaced, from left to right. */
  function Unquoted(s: string): (u: string)
    ensures |u| <= |s|
  {
    if s == "" then ""
    else if StartsWith(s, "&lt;") then ['<'] + Unquoted(s[4..])
    else if StartsWith(s, "&gt;") then ['>'] + Unquoted(s[4..])
    else if StartsWith(s, "&amp;") then ['&'] + Unquoted(s[5..])
    else [s[0]] + Unquoted(s[1..])
  }

  lemma QuotedLast(s: string, c: char)
    ensures Quoted(s + [c]) == Quoted(s) + QuotedChar(c)
  {
    hide QuotedChar;
    assert (s + [c])[..|s|] == s;
  }

  lemma {:induction false} QuotedFirst(c: char, s: string)
    ensures Quoted([c] + s) == QuotedChar(c) + Quoted(s)
    decreases |s|
  {
    hide QuotedChar;
    if s == "" {
      QuotedLast("", c);
      assert [c] + s == "" + [c];
    } else {
      hide Quoted;
      var n := |s| - 1;
      var t, last := s[..n], s[n];
      QuotedFirst(c, t);
      assert s == t + [last] && [c] + s == ([c] + t) + [last];
      QuotedLast(t, last);
      QuotedLast([c] + t, last);
    }
  }

  /** Quoting replaces each of three characters by its entity and leaves the others alone. */
  lemma Entities(c: char)
    ensures Quoted("&") == "&amp;" && Quoted("<") == "&lt;" && Quoted(">") == "&gt;"
    ensures c != '&' && c != '<' && c != '>' ==> Quoted([c]) == [c]
    ensures Unquoted("&amp;") == "&" && Unquoted("&lt;") == "<" && Unquoted("&gt;") == ">"
  {
    QuotedOne('&');
    QuotedOne('<');
    QuotedOne('>');
    QuotedOne(c);
    RoundTrip("&");
    RoundTrip("<");
    RoundTrip(">");
  }

  lemma QuotedOne(c: char)
    ensures Quoted([c]) == QuotedChar(c)
  {
    QuotedLast("", c);
    assert "" + [c] == [c];
  }

  lemma {:induction false} QuotedAppend(s: string, t: string)
    ensures Quoted(s + t) == Quoted(s) + Quoted(t)
    decreases |t|
  {
    hide QuotedChar;
    if t == "" {
      assert s + t == s;
    } else {
      var n := |t| - 1;
      assert s + t == (s + t[..n]) + [t[n]];
      QuotedAppend(s, t[..n]);
      QuotedLast(s + t[..n], t[n]);
    }
  }

  lemma UnquotedSpecial(c: char, q: string, rest: string)
    requires Special(c) && q == QuotedChar(c)
    ensures Unquoted(q + rest) == [c] + Unquoted(rest)
  {
    var s := q + rest;
    assert s[|q|..] == rest && |"&lt;"| == 4;
    assert "&lt;"[1] == 'l' && "&gt;"[1] == 'g';
    if c == '&' {
      assert s[1] == 'a' && StartsWith(s, "&amp;");
    } else if c == '>' {
      assert s[1] == 'g' && StartsWith(s, "&gt;");
    } else {
      assert StartsWith(s, "&lt;");
    }
  }

  lemma UnquotedFirst(c: char, rest: string)
    ensures Unquoted(QuotedChar(c) + rest) == [c] + Unquoted(rest)
  {
    if Special(c) {
      UnquotedSpecial(c, QuotedChar(c), rest);
    } else {
      var s := [c] + rest;
      assert s[0] == c && s[1..] == rest;
      assert "&lt;"[0] == '&' && "&gt;"[0] == '&' && "&amp;"[0] == '&';
    }
  }

  /** Main result: unquoting undoes quoting, whatever the text looks like. */
  lemma {:induction false} RoundTrip(s: string)
    ensures Unquoted(Quoted(s)) == s
    decreases |s|
  {
    if s != "" {
      assert s == [s[0]] + s[1..];
      QuotedFirst(s[0], s[1..]);
      UnquotedFirst(s[0], Quoted(s[1..]));
      RoundTrip(s[1..]);
    }
  }

  /** Quoted text contains no brackets, and no zero if the text has none. */
  lemma {:induction false} QuotedIsPlain(s: string)
    ensures forall i :: 0 <= i < |Quoted(s)| ==> Quoted(s)[i] != '<' && Quoted(s)[i] != '>'
    ensures NoZero(s) ==> NoZero(Quoted(s))
    decreases |s|
  {
    if s != "" {
      QuotedIsPlain(s[..|s| - 1]);
      var c := s[|s| - 1];
      assert forall i :: 0 <= i < |QuotedChar(c)| ==> QuotedChar(c)[i] != '<' && QuotedChar(c)[i] != '>';
    }
  }

  lemma {:induction false} QuotedGrows(s: string, k: nat)
    requires k <= |s|
    ensures |Quoted(s[..k])| + (|s| - k) <= |Quoted(s)|
    decreases |s|
  {
    if k == |s| {
      assert s[..k] == s;
    } else {
      QuotedGrows(s[..|s| - 1], k);
      assert s[..|s| - 1][..k] == s[..k];
    }
  }

  lemma QuotedNext(s: string, k: nat)
    requires k < |s|
    ensures Quoted(s[..k + 1]) == Quoted(s[..k]) + QuotedChar(s[k])
  {
    assert s[..k + 1][..k] == s[..k];
  }

  /** What XmlQuoteText accepts: there must be room for the quoted text and its terminator, and for one more character if
      the text ends with a special one. */
  predicate Accepted(s: string, max: nat) {
    |Quoted(s)| < max && (s != "" && Special(s[|s| - 1]) ==> |Quoted(s)| + 1 < max)
  }

  /** Copies a string into an array, without its terminator. */
  method Put(dst: array<char>, at: nat, s: string)
    requires at + |s| <= dst.Length
    modifies dst
    ensures dst[..] == old(dst[..at]) + s + old(dst[at + |s|..])
  {
    forall i | 0 <= i < |s| { dst[at + i] := s[i]; }
  }

  /** One pass of the loop of XmlQuoteText. */
  method QuoteChar(c: char, textDst: array<char>, pos: nat, last: nat) returns (ok: bool, pos': nat)
    requires pos <= last < textDst.Length
    modifies textDst
    ensures ok <==> !Special(c) || pos + |QuotedChar(c)| + 1 <= last
    ensures ok ==> pos' == pos + |QuotedChar(c)| <= last + 1 && textDst[..pos'] == old(textDst[..pos]) + QuotedChar(c)
    ensures textDst[last + 1..] == old(textDst[last + 1..])
  {
    ok, pos' := true, pos;
    if c == '&' {
      if pos + 6 > last { return false, pos; }
      Put(textDst, pos, "&amp;\0");
      pos' := pos + 5;
    } else if c == '>' {
      if pos + 5 > last { return false, pos; }
      Put(textDst, pos, "&gt;\0");
      pos' := pos + 4;
    } else if c == '<' {
      if pos + 5 > last { return false, pos; }
      Put(textDst, pos, "&lt;\0");
      pos' := pos + 4;
    } else {
      textDst[pos] := c;
      pos' := pos + 1;
    }
  }

  /** XmlQuoteText.  Returns where the terminator is. */
  method XmlQuoteText(textSrc: string, textDst: array<char>, textDstMaxSize: nat) returns (end: Pointer)
    requires NoZero(textSrc) && textDstMaxSize <= textDst.Length
    modifies textDst
    ensures end.At? <==> Accepted(textSrc, textDstMaxSize)
    ensures end.At? ==> end.i == |Quoted(textSrc)| < textDst.Length && textDst[..end.i] == Quoted(textSrc) && textDst[end.i] == Zero
    ensures textDst[textDstMaxSize..] == old(textDst[textDstMaxSize..])
  {
    hide Quoted; hide QuotedChar;
    QuotedNothing();
    if textDstMaxSize == 0 { return Null; }
    var last := textDstMaxSize - 1;
    var k, pos := 0, 0;
    assert textSrc[..0] == "";
    while k < |textSrc| && pos <= last
      invariant 0 <= k <= |textSrc| && 0 <= pos <= textDstMaxSize
      invariant pos == |Quoted(textSrc[..k])| && textDst[..pos] == Quoted(textSrc[..k])
      invariant k > 0 && Special(textSrc[k - 1]) ==> pos + 1 < textDstMaxSize
      invariant textDst[textDstMaxSize..] == old(textDst[textDstMaxSize..])
    {
      QuotedNext(textSrc, k);
      QuotedGrows(textSrc, k + 1);
      var ok, next := QuoteChar(textSrc[k], textDst, pos, last);
      if !ok { SpecialTooLate(textSrc, k, textDstMaxSize); return Null; }
      pos := next;
      k := k + 1;
    }
    QuotedGrows(textSrc, k);
    if pos > last { return Null; }
    assert textSrc[..k] == textSrc;
    textDst[pos] := Zero;
    end := At(pos);
  }

  lemma QuotedNothing()
    ensures Quoted("") == ""
  {
  }

  /** A special character for which there is no room leaves none for the whole text. */
  lemma SpecialTooLate(s: string, k: nat, max: nat)
    requires k < |s| && Special(s[k]) && |Quoted(s[..k + 1])| + 1 >= max
    ensures !Accepted(s, max)
  {
    hide Quoted;
    QuotedGrows(s, k + 1);
    if k + 1 == |s| { assert s[..k + 1] == s; }
  }

  // ---- Finding elements ----

  /** BeginsWith */
  method BeginsWith(xml: string, i: nat, name: string) returns (b: bool)
    requires IsText(xml) && i < |xml| && name != "" && NoZero(name)
    ensures b == NameAt(xml, i, name)
    ensures b ==> i + |name| < |xml|
  {
    var k := 0;
    while xml[i + k] == name[k]
      invariant 0 <= k < |name| && i + k < |xml| && forall j :: 0 <= j < k ==> xml[i + j] == name[j]
      decreases |name| - k
    {
      assert xml[i + k] != Zero;
      k := k + 1;
      if k == |name| { return true; }
      assert name[k] != Zero;
      if xml[i + k] == Zero { return false; }
    }
    b := false;
  }

  /** strchr for a character other than zero. */
  method StrChr(xml: string, i: nat, c: char) returns (p: Pointer)
    requires IsText(xml) && i < |xml| && c != Zero
    ensures match p
            case At(k) => i <= k < |xml| - 1 && xml[k] == c && forall j :: i <= j < k ==> xml[j] != c
            case Null => forall j :: i <= j < |xml| ==> xml[j] != c
  {
    var k := i;
    while xml[k] != Zero
      invariant i <= k < |xml| && forall j :: i <= j < k ==> xml[j] != c
      decreases |xml| - k
    {
      if xml[k] == c { return At(k); }
      k := k + 1;
    }
    p := Null;
  }

  /** The beginning of an opening tag, a comment or a declaration. */
  predicate IsNode(xml: string, p: nat) { p + 1 < |xml| && xml[p] == '<' && xml[p + 1] != '/' }

  /** XmlNextNode */
  method XmlNextNode(xml: string, xmlNode: nat) returns (next: Pointer)
    requires IsText(xml) && xmlNode < |xml| - 1
    ensures match next
            case At(p) => xmlNode < p < |xml| - 1 && IsNode(xml, p) && forall q :: xmlNode < q < p ==> !IsNode(xml, q)
            case Null => forall q :: xmlNode < q < |xml| ==> !IsNode(xml, q)
  {
    var i := xmlNode + 1;
    var t := StrChr(xml, i, '<');
    while t.At?
      invariant xmlNode < i < |xml|
      invariant forall q :: xmlNode < q < i ==> !IsNode(xml, q)
      invariant match t
                case At(k) => i <= k < |xml| - 1 && xml[k] == '<' && forall j :: i <= j < k ==> xml[j] != '<'
                case Null => forall j :: i <= j < |xml| ==> xml[j] != '<'
      decreases |xml| - i
    {
      if xml[t.i + 1] != '/' { return t; }
      i := t.i + 1;
      t := StrChr(xml, i, '<');
    }
    next := Null;
  }

  /** An element of this name begins at p, or would if there were a bracket there. */
  predicate ElementAt(xml: string, p: nat, name: string) {
    && NameAt(xml, p + 1, name)
    && p + 1 + |name| < |xml| && (xml[p + 1 + |name|] == '>' || xml[p + 1 + |name|] == ' ')
  }

  /** Where XmlFindElement looks: where it starts, and at every tag after that. */
  predicate Candidate(xml: string, start: nat, q: nat) { q == start || (q > start && IsNode(xml, q)) }

  /** XmlFindElement: the first element of this name. */
  method XmlFindElement(xml: string, start: nat, nodeName: string) returns (p: Pointer)
    requires IsText(xml) && start < |xml| - 1 && nodeName != "" && NoZero(nodeName)
    ensures match p
            case At(t) => Candidate(xml, start, t) && ElementAt(xml, t, nodeName)
                          && forall q :: start <= q < t && Candidate(xml, start, q) ==> !ElementAt(xml, q, nodeName)
            case Null => forall q :: start <= q < |xml| && Candidate(xml, start, q) ==> !ElementAt(xml, q, nodeName)
  {
    p := At(start);
    while p.At?
      invariant p.At? ==> start <= p.i < |xml| - 1 && Candidate(xml, start, p.i)
      invariant match p
                case At(t) => forall q :: start <= q < t && Candidate(xml, start, q) ==> !ElementAt(xml, q, nodeName)
                case Null => forall q :: start <= q < |xml| && Candidate(xml, start, q) ==> !ElementAt(xml, q, nodeName)
      decreases if p.At? then |xml| - p.i else 0
    {
      var t := p.i;
      var begins := BeginsWith(xml, t + 1, nodeName);
      if begins && (xml[t + |nodeName| + 1] == '>' || xml[t + |nodeName| + 1] == ' ') { return; }
      p := XmlNextNode(xml, t);
    }
  }

  // ---- Reading text ----

  /** Whether an entity begins at i is seen in the text alone, which a bracket ends. */
  lemma EntityAt(xml: string, t: nat, e: nat, i: nat, entity: string)
    requires t <= e < |xml| && xml[e] == '<' && i < e - t && forall k :: 0 <= k < |entity| ==> entity[k] != '<'
    ensures NameAt(xml, t + i, entity) <==> StartsWith(xml[t..e][i..], entity)
  {
    var body := xml[t..e][i..];
    assert forall k :: 0 <= k < |body| ==> body[k] == xml[t + i + k];
    var k := e - t - i;
    assert xml[t + i + k] == '<';
    if k < |entity| { assert entity[k] != '<'; }
  }

  /** What stands from t to e; nothing if e comes first. */
  function Between(xml: string, t: nat, e: nat): string
    requires e < |xml|
  {
    if t <= e then xml[t..e] else ""
  }

  /** The same with entities replaced. */
  function TextBetween(xml: string, t: nat, e: nat): string
    requires e < |xml|
  {
    Unquoted(Between(xml, t, e))
  }

  /** Where c is from i on; |xml| if it is not there. */
  function FirstOf(xml: string, i: nat, c: char): (p: nat)
    requires i <= |xml|
    ensures i <= p <= |xml| && (p < |xml| ==> xml[p] == c)
    ensures forall j :: i <= j < p ==> xml[j] != c
    decreases |xml| - i
  {
    if i == |xml| || xml[i] == c then i else FirstOf(xml, i + 1, c)
  }

  datatype NodeText = NoText | Text(value: string)

  /** The text of a node, if it is one and has no more than xmlTextSize characters as it stands there. */
  function TextOf(xml: string, xmlNode: nat, xmlTextSize: nat): NodeText
    requires xmlNode < |xml|
  {
    var t, e := FirstOf(xml, xmlNode, '>'), FirstOf(xml, xmlNode + 1, '<');
    if xml[xmlNode] != '<' || t == |xml| || e == |xml| || e - (t + 1) > xmlTextSize then NoText
    else Text(TextBetween(xml, t + 1, e))
  }

  /** What stands between the brackets of a node that has text. */
  function BodyOf(xml: string, xmlNode: nat): string
    requires xmlNode < |xml|
  {
    var t, e := FirstOf(xml, xmlNode, '>'), FirstOf(xml, xmlNode + 1, '<');
    if t == |xml| || e == |xml| then "" else Between(xml, t + 1, e)
  }

  predicate EntityFirst(s: string) { StartsWith(s, "&lt;") || StartsWith(s, "&gt;") || StartsWith(s, "&amp;") }

  /** An entity occurs somewhere. */
  predicate HasEntity(s: string) { exists i :: 0 <= i < |s| && EntityFirst(s[i..]) }

  lemma EntityLater(s: string)
    requires s != "" && !EntityFirst(s)
    ensures HasEntity(s) <==> HasEntity(s[1..])
  {
    hide NameAt; hide StartsWith;
    assert s[0..] == s;
    forall i | 0 <= i < |s| - 1 ensures s[1..][i..] == s[i + 1..] { }
    if HasEntity(s) {
      var i :| 0 <= i < |s| && EntityFirst(s[i..]);
      assert EntityFirst(s[1..][i - 1..]);
    }
    if HasEntity(s[1..]) {
      var i :| 0 <= i < |s[1..]| && EntityFirst(s[1..][i..]);
      assert EntityFirst(s[i + 1..]);
    }
  }

  /** Replacing entities makes text shorter exactly if there are any. */
  lemma {:induction false} ShorterWithEntity(s: string)
    ensures |Unquoted(s)| < |s| <==> HasEntity(s)
    decreases |s|
  {
    hide HasEntity; hide NameAt; hide StartsWith;
    if s == "" {
      NoEntityInNothing();
    } else if EntityFirst(s) {
      EntityAtFront(s);
    } else {
      UnquotedStep(s);
      EntityLater(s);
      ShorterWithEntity(s[1..]);
    }
  }

  lemma NoEntityInNothing()
    ensures !HasEntity("")
  {
  }

  lemma EntityAtFront(s: string)
    requires EntityFirst(s)
    ensures HasEntity(s) && |Unquoted(s)| < |s|
  {
    UnquotedStep(s);
    assert s[0..] == s;
  }

  /** Main result: a destination of xmlTextSize characters, which is what callers give the size of, has room for accepted
      text and its terminator if and only if the body has fewer characters, or an entity that makes it shorter. */
  lemma BufferSuffices(xml: string, xmlNode: nat, xmlTextSize: nat)
    requires xmlNode < |xml| && TextOf(xml, xmlNode, xmlTextSize).Text?
    ensures |TextOf(xml, xmlNode, xmlTextSize).value| < xmlTextSize
       <==> |BodyOf(xml, xmlNode)| < xmlTextSize || (|BodyOf(xml, xmlNode)| == xmlTextSize && HasEntity(BodyOf(xml, xmlNode)))
  {
    hide Unquoted; hide HasEntity; hide FirstOf;
    ShorterWithEntity(BodyOf(xml, xmlNode));
  }

  /** A body of two characters is accepted for a destination of two, where its terminator has no place. */
  lemma BufferTooSmall()
    ensures TextOf("<a>xy<" + [Zero], 0, 2) == Text("xy")
  {
    var xml := "<a>xy<" + [Zero];
    assert xml[0] == '<' && xml[1] == 'a' && xml[2] == '>' && xml[3] == 'x' && xml[4] == 'y' && xml[5] == '<';
    assert FirstOf(xml, 0, '>') == 2 && FirstOf(xml, 1, '<') == 5;
    assert xml[3..5] == "xy";
    assert "&lt;"[0] == '&' && "&gt;"[0] == '&' && "&amp;"[0] == '&';
    assert "xy"[1..] == "y" && "y"[1..] == "";
    assert Unquoted("y") == "y";
  }

  /** XmlGetNodeText.  A body of xmlTextSize characters is still accepted; the destination needs room for the text and its
      terminator.  Returns where the text begins. */
  method XmlGetNodeText(xml: string, xmlNode: nat, xmlText: array<char>, xmlTextSize: nat) returns (text: Pointer)
    requires IsText(xml) && xmlNode < |xml| - 1 && xmlText.Length > 0
    requires TextOf(xml, xmlNode, xmlTextSize).Text? ==> |TextOf(xml, xmlNode, xmlTextSize).value| < xmlText.Length
    modifies xmlText
    ensures text.At? <==> TextOf(xml, xmlNode, xmlTextSize).Text?
    ensures text.At? ==> text.i == FirstOf(xml, xmlNode, '>') + 1
    ensures text.At? ==> var u := TextOf(xml, xmlNode, xmlTextSize).value; |u| < xmlText.Length && xmlText[..|u|] == u && xmlText[|u|] == Zero
  {
    hide TextBetween;
    xmlText[0] := Zero;
    if xml[xmlNode] != '<' { return Null; }
    var close := StrChr(xml, xmlNode, '>');
    if close.Null? { return Null; }
    var t := close.i + 1;
    var bracket := StrChr(xml, xmlNode + 1, '<');
    if bracket.Null? { return Null; }
    var l := bracket.i - t;
    if l > xmlTextSize { return Null; }
    CopyText(xml, t, bracket.i, xmlText);
    text := At(t);
  }

  /** One pass of the loop that replaces entities. */
  method CopyChar(xml: string, t: nat, e: nat, i: nat, xmlText: array<char>, j: nat) returns (i': nat)
    requires IsText(xml) && t <= e < |xml| - 1 && xml[e] == '<' && i < e - t && j < xmlText.Length
    modifies xmlText
    ensures i < i' <= e - t && xmlText[..j] == old(xmlText[..j])
    ensures Unquoted(xml[t..e][i..]) == [xmlText[j]] + Unquoted(xml[t..e][i'..])
  {
    hide Unquoted; hide NameAt; hide StartsWith;
    ghost var body := xml[t..e];
    EntityAt(xml, t, e, i, "&lt;");
    EntityAt(xml, t, e, i, "&gt;");
    EntityAt(xml, t, e, i, "&amp;");
    UnquotedStep(body[i..]);
    var lt := BeginsWith(xml, t + i, "&lt;");
    if lt {
      xmlText[j] := '<';
      assert body[i..][4..] == body[i + 4..];
      return i + 4;
    }
    var gt := BeginsWith(xml, t + i, "&gt;");
    if gt {
      xmlText[j] := '>';
      assert body[i..][4..] == body[i + 4..];
      return i + 4;
    }
    var amp := BeginsWith(xml, t + i, "&amp;");
    if amp {
      xmlText[j] := '&';
      assert body[i..][5..] == body[i + 5..];
      return i + 5;
    }
    xmlText[j] := xml[t + i];
    assert body[i..][1..] == body[i + 1..];
    i' := i + 1;
  }

  /** The loop that replaces entities. */
  method CopyText(xml: string, t: nat, e: nat, xmlText: array<char>)
    requires IsText(xml) && t < |xml| && e < |xml| - 1 && xml[e] == '<' && |TextBetween(xml, t, e)| < xmlText.Length
    modifies xmlText
    ensures var u := TextBetween(xml, t, e); |u| < xmlText.Length && xmlText[..|u|] == u && xmlText[|u|] == Zero
  {
    hide Unquoted;
    UnquotedNothing();
    ghost var total := TextBetween(xml, t, e);
    var l := e - t;
    ghost var body := if l >= 0 then xml[t..e] else "";
    var i, j := 0, 0;
    assert total == Unquoted(body) && body[0..] == body;
    hide TextBetween;
    while i < l
      invariant 0 <= j <= i <= |body| && j < xmlText.Length
      invariant total == xmlText[..j] + Unquoted(body[i..])
    {
      ghost var done, before := xmlText[..j], i;
      i := CopyChar(xml, t, e, i, xmlText, j);
      j := j + 1;
      assert xmlText[..j] == done + [xmlText[j - 1]];
      Regroup(done, xmlText[j - 1], Unquoted(body[i..]));
    }
    assert body[i..] == "";
    xmlText[j] := Zero;
  }

  lemma Regroup(done: string, c: char, rest: string)
    ensures done + ([c] + rest) == done + [c] + rest
  {
  }

  lemma UnquotedNothing()
    ensures Unquoted("") == ""
  {
  }

  lemma UnquotedStep(s: string)
    requires s != ""
    ensures if StartsWith(s, "&lt;") then |s| >= 4 && Unquoted(s) == ['<'] + Unquoted(s[4..])
            else if StartsWith(s, "&gt;") then |s| >= 4 && Unquoted(s) == ['>'] + Unquoted(s[4..])
            else if StartsWith(s, "&amp;") then |s| >= 5 && Unquoted(s) == ['&'] + Unquoted(s[5..])
            else Unquoted(s) == [s[0]] + Unquoted(s[1..])
  {
  }

  /** An element whose body is quoted text. */
  function Element(before: string, tag: string, s: string, after: string): string {
    before + "<" + tag + ">" + Quoted(s) + "<" + after + [Zero]
  }

  /** The first c after some text without it. */
  lemma SkipTo(x: string, y: string, z: string, c: char)
    requires (forall i :: 0 <= i < |y| ==> y[i] != c) && z != "" && z[0] == c
    ensures FirstOf(x + y + z, |x|, c) == |x| + |y|
  {
    var s := x + y + z;
    assert s[|x| + |y|] == c;
    assert forall j :: |x| <= j < |x| + |y| ==> s[j] == y[j - |x|];
  }

  lemma Middle(x: string, y: string, z: string)
    ensures (x + y + z)[|x|..|x| + |y|] == y
  {
  }

  /** Main result: an element whose body XmlQuoteText has written is accepted exactly if the quoted text fits, and then
      XmlGetNodeText makes the original text of it. */
  lemma QuotedTextReadsBack(before: string, tag: string, s: string, after: string, xmlTextSize: nat)
    requires forall i :: 0 <= i < |tag| ==> tag[i] != '<' && tag[i] != '>'
    ensures TextOf(Element(before, tag, s, after), |before|, xmlTextSize) == if |Quoted(s)| <= xmlTextSize then Text(s) else NoText
    ensures NoZero(before) && NoZero(tag) && NoZero(s) && NoZero(after) ==> IsText(Element(before, tag, s, after))
  {
    hide Unquoted; hide Quoted; hide FirstOf; hide IsText; hide Element;
    var q, open, end := Quoted(s), "<" + tag, "<" + after + [Zero];
    QuotedIsPlain(s);
    ElementParts(before, tag, s, after);
    SkipTo(before, open, ">" + q + end, '>');
    SkipTo(before + "<", tag + ">" + q, end, '<');
    Middle(before + open + ">", q, end);
    RoundTrip(s);
    if NoZero(before) && NoZero(tag) && NoZero(s) && NoZero(after) { ElementIsText(before, tag, s, after); }
  }

  lemma ElementParts(before: string, tag: string, s: string, after: string)
    ensures var xml, q, end := Element(before, tag, s, after), Quoted(s), "<" + after + [Zero];
            && |before| < |xml| && xml[|before|] == '<'
            && xml == before + ("<" + tag) + (">" + q + end)
            && xml == (before + "<") + (tag + ">" + q) + end
            && xml == (before + ("<" + tag) + ">") + q + end
  {
    hide Quoted;
  }

  lemma ElementIsText(before: string, tag: string, s: string, after: string)
    requires NoZero(before) && NoZero(tag) && NoZero(Quoted(s)) && NoZero(after)
    ensures IsText(Element(before, tag, s, after))
  {
  }

  /** XmlQuoteText refuses text for which there is room with its terminator. */
  lemma QuotingCanFail()
    ensures |Quoted("&")| == 5 && !Accepted("&", 6)
  {
    QuotedLast("", '&');
    assert "" + ['&'] == "&";
  }
}
