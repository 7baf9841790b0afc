/**
 ICE servers in a Link header (section 3 of RFC 8288, with quoted strings as in section 5.6.4 of RFC 9110):
 the printer, the parser as a function, and the cursor-driven parser that is proved to compute it.
 */
module LinkHeader {
  import opened Wrappers

  datatype IceServer = IceServer(url: string, username: Option<string>, credential: Option<string>)

  /** A link as it stands in the header, before it is looked at. */
  datatype Link = Link(target: string, parameters: seq<(string, string)>)

  // ---------- printing ----------

  function Escaped(text: string): string {
    if text == "" then ""
    else (if text[0] == '\\' || text[0] == '"' then ['\\', text[0]] else [text[0]]) + Escaped(text[1..])
  }

  function Quoted(text: string): string {
    "\"" + Escaped(text) + "\""
  }

  function Printed(h: IceServer): string {
    "<" + h.url + ">" + PrintedParameters(h)
  }

  function PrintedParameters(h: IceServer): string {
    PrintedParameter("rel", Some("ice-server")) + PrintedParameter("username", h.username)
    + PrintedParameter("credential", h.credential)
  }

  function PrintedParameter(name: string, value: Option<string>): string {
    if value.None? then "" else "; " + name + "=" + Quoted(value.value)
  }

  function PrintedAll(headers: seq<IceServer>): string {
    if headers == [] then ""
    else if |headers| == 1 then Printed(headers[0])
    else Printed(headers[0]) + ", " + PrintedAll(headers[1..])
  }

  method Quote(text: string) returns (out: string)
    ensures out == Quoted(text)
  {
    out := "\"";
    var rest := text;
    while rest != ""
      invariant out + Escaped(rest) == "\"" + Escaped(text)
      decreases |rest|
    {
      var c := rest[0];
      ghost var before := out;
      if c == '\\' || c == '"' {
        out := out + "\\";
        out := out + [c];
        assert out == before + ['\\', c];
      } else {
        out := out + [c];
      }
      rest := rest[1..];
    }
    out := out + "\"";
  }

  method Print(h: IceServer) returns (out: string)
    ensures out == Printed(h)
  {
    hide Quoted;
    RelIsPlain();
    out := "<" + h.url + ">; rel=\"ice-server\"";
    ghost var rel := PrintedParameter("rel", Some("ice-server"));
    assert out == "<" + h.url + ">" + rel;
    if h.username.Some? {
      var q := Quote(h.username.value);
      out := AppendParameter(out, "username", q);
    }
    ghost var username := PrintedParameter("username", h.username);
    assert out == "<" + h.url + ">" + rel + username;
    if h.credential.Some? {
      var q := Quote(h.credential.value);
      out := AppendParameter(out, "credential", q);
    }
    hide PrintedParameter;
    Regroup("<" + h.url + ">", rel, username, PrintedParameter("credential", h.credential));
  }

  lemma Regroup(a: string, b: string, c: string, d: string)
    ensures a + b + c + d == a + (b + c + d)
  {
  }

  method AppendParameter(out: string, name: string, quoted: string) returns (r: string)
    ensures r == out + ("; " + name + "=" + quoted)
  {
    r := out + "; " + name + "=" + quoted;
  }

  lemma RelIsPlain()
    ensures PrintedParameter("rel", Some("ice-server")) == "; rel=\"ice-server\""
  {
    hide Escaped;
    PlainIsNotEscaped("ice-server");
  }

  lemma {:induction false} PlainIsNotEscaped(text: string)
    requires '\\' !in text && '"' !in text
    ensures Escaped(text) == text
  {
    if text != "" {
      PlainIsNotEscaped(text[1..]);
    }
  }

  // ---------- parsing ----------

  /** The characters with the Unicode property White_Space. */
  predicate IsWhitespace(c: char) {
    var n := c as int;
    || 0x09 <= n <= 0x0D || n == 0x20 || n == 0x85 || n == 0xA0 || n == 0x1680
    || 0x2000 <= n <= 0x200A || n == 0x2028 || n == 0x2029 || n == 0x202F || n == 0x205F || n == 0x3000
  }

  lemma WhitespaceIs(c: char)
    ensures IsWhitespace(c) <==> c in {
      '\U{9}', '\U{a}', '\U{b}', '\U{c}', '\U{d}', ' ', '\U{85}', '\U{a0}', '\U{1680}', '\U{2000}', '\U{2001}', '\U{2002}',
      '\U{2003}', '\U{2004}', '\U{2005}', '\U{2006}', '\U{2007}', '\U{2008}', '\U{2009}', '\U{200a}', '\U{2028}', '\U{2029}',
      '\U{202f}', '\U{205f}', '\U{3000}'}
  {
  }

  predicate IsNameChar(c: char) {
    !IsWhitespace(c) && c != '=' && c != ';' && c != ','
  }

  predicate IsSeparator(c: char) {
    c == ';' || c == ','
  }

  predicate IsInTarget(c: char) {
    c != '>'
  }

  function LowerChar(c: char): char {
    if 'A' <= c <= 'Z' then ((c as int) + 32) as char else c
  }

  function Lower(s: string): (r: string)
    ensures |r| == |s|
  {
    seq(|s|, i requires 0 <= i < |s| => LowerChar(s[i]))
  }

  function Trim(s: string): (r: string)
    ensures |r| <= |s|
  {
    if s != "" && IsWhitespace(s[0]) then Trim(s[1..]) else s
  }

  /** The longest prefix of characters that satisfy p, and what follows it. */
  function Span(s: string, p: char -> bool): (r: (string, string))
    ensures |r.1| <= |s|
    ensures s == r.0 + r.1
    ensures forall c :: c in r.0 ==> p(c)
  {
    if s != "" && p(s[0]) then
      var (taken, rest) := Span(s[1..], p);
      ([s[0]] + taken, rest)
    else ("", s)
  }

  predicate StartsWith(s: string, c: char) {
    s != "" && s[0] == c
  }

  /** The inside of a quoted string up to its closing quote. */
  function ParseQuotedBody(s: string): (r: (string, string))
    ensures |r.1| <= |s|
  {
    if s == "" then ("", "")
    else if s[0] == '\\' then
      if |s| == 1 then ("", "")
      else
        var (text, rest) := ParseQuotedBody(s[2..]);
        ([s[1]] + text, rest)
    else if s[0] == '"' then ("", s[1..])
    else
      var (text, rest) := ParseQuotedBody(s[1..]);
      ([s[0]] + text, rest)
  }

  function ParseQuotedString(s: string): (r: (string, string))
    ensures |r.1| <= |s|
  {
    if StartsWith(s, '"') then ParseQuotedBody(s[1..]) else ("", s)
  }

  function ParseValue(s: string): (r: (string, string))
    ensures |r.1| <= |s|
  {
    if StartsWith(s, '=') then
      var v := Trim(s[1..]);
      if StartsWith(v, '"') then ParseQuotedString(v) else Span(v, IsSeparator)
    else ("", s)
  }

  /** One parameter, from behind its semicolon. */
  function ParseParameter(s: string): (r: ((string, string), string))
    ensures |r.1| <= |s|
  {
    var (name, afterName) := Span(Trim(s), IsNameChar);
    var (value, rest) := ParseValue(Trim(afterName));
    ((Lower(name), value), Trim(rest))
  }

  function ParseParameters(s: string): (r: (seq<(string, string)>, string))
    ensures |r.1| <= |s|
    decreases |s|
  {
    if s == "" then ([], "")
    else
      var t := Trim(s);
      if !StartsWith(t, ';') then ([], t)
      else
        var (parameter, rest) := ParseParameter(t[1..]);
        if rest == "" || rest[0] == ',' then ([parameter], rest)
        else
          var (more, end) := ParseParameters(rest);
          ([parameter] + more, end)
  }

  function AfterComma(s: string): (r: string)
    ensures |r| <= |s|
  {
    if StartsWith(s, ',') then Trim(s[1..]) else s
  }

  /** One link with the comma after it, and what is left; None where the list ends. */
  function ParseLink(s: string): (r: Option<(Link, string)>)
    ensures r.Some? ==> |r.value.1| < |s|
  {
    var t := Trim(s);
    if !StartsWith(t, '<') then None
    else
      var (target, rest) := Span(t[1..], IsInTarget);
      if !StartsWith(rest, '>') then None
      else
        var (parameters, end) := ParseParameters(rest[1..]);
        Some((Link(target, parameters), AfterComma(Trim(end))))
  }

  function ParseLinks(s: string): seq<Link>
    decreases |s|
  {
    if s == "" then []
    else
      match ParseLink(s)
      case None => []
      case Some((link, rest)) => [link] + ParseLinks(rest)
  }

  function FirstValue(parameters: seq<(string, string)>, name: string): Option<string> {
    if parameters == [] then None
    else if parameters[0].0 == name then Some(parameters[0].1)
    else FirstValue(parameters[1..], name)
  }

  predicate IsIceServer(link: Link) {
    ("rel", "ice-server") in link.parameters
  }

  /** The server that a link gives, if its relation is the right one. */
  function ServerOf(link: Link): seq<IceServer> {
    if IsIceServer(link) then
      [IceServer(link.target, FirstValue(link.parameters, "username"), FirstValue(link.parameters, "credential"))]
    else []
  }

  function ServersOf(links: seq<Link>): seq<IceServer> {
    if links == [] then [] else ServerOf(links[0]) + ServersOf(links[1..])
  }

  function Parse(s: string): seq<IceServer> {
    ServersOf(ParseLinks(Trim(s)))
  }

  // ---------- parsing undoes printing ----------

  lemma {:induction false} QuotedBodyRoundTrip(text: string, tail: string)
    ensures ParseQuotedBody(Escaped(text) + "\"" + tail) == (text, tail)
  {
    var s := Escaped(text) + "\"" + tail;
    if text == "" {
      assert s[1..] == tail;
    } else {
      QuotedBodyRoundTrip(text[1..], tail);
      var inner := Escaped(text[1..]) + "\"" + tail;
      if text[0] == '\\' || text[0] == '"' {
        assert s == ['\\', text[0]] + inner;
        assert s[2..] == inner;
      } else {
        assert s == [text[0]] + inner;
        assert s[1..] == inner;
      }
      assert text == [text[0]] + text[1..];
    }
  }

  lemma {:induction false} SpanStops(prefix: string, tail: string, p: char -> bool)
    requires forall c :: c in prefix ==> p(c)
    requires tail == "" || !p(tail[0])
    ensures Span(prefix + tail, p) == (prefix, tail)
  {
    if prefix == "" {
      assert prefix + tail == tail;
    } else {
      assert (prefix + tail)[1..] == prefix[1..] + tail;
      SpanStops(prefix[1..], tail, p);
      assert prefix == [prefix[0]] + prefix[1..];
    }
  }

  predicate Blank(s: string) {
    forall c :: c in s ==> IsWhitespace(c)
  }

  /** A parameter name: no white space and no separators. */
  predicate IsName(name: string) {
    forall c :: c in name ==> IsNameChar(c)
  }

  lemma {:induction false} BlankIsTrimmed(blank: string, s: string)
    requires Blank(blank) && (s == "" || !IsWhitespace(s[0]))
    ensures Trim(blank + s) == s
  {
    if blank == "" {
      assert blank + s == s;
    } else {
      assert (blank + s)[1..] == blank[1..] + s;
      BlankIsTrimmed(blank[1..], s);
    }
  }

  lemma ValueRoundTrip(blank: string, value: string, tail: string)
    requires Blank(blank)
    ensures ParseValue("=" + (blank + (Quoted(value) + tail))) == (value, tail)
  {
    hide Span;
    var quoted := Quoted(value) + tail;
    assert ("=" + (blank + quoted))[1..] == blank + quoted;
    BlankIsTrimmed(blank, quoted);
    assert quoted[0] == '"' && quoted[1..] == Escaped(value) + "\"" + tail;
    QuotedBodyRoundTrip(value, tail);
  }

  /** White space around the name, the equals sign and the value does not matter, nor does the case of the name. */
  lemma ParameterRoundTrip(b1: string, name: string, b2: string, b3: string, value: string, b4: string, tail: string)
    requires Blank(b1) && Blank(b2) && Blank(b3) && Blank(b4) && IsName(name) && (tail == "" || !IsWhitespace(tail[0]))
    ensures ParseParameter(b1 + (name + (b2 + ("=" + (b3 + (Quoted(value) + (b4 + tail))))))) == ((Lower(name), value), tail)
  {
    var valued := "=" + (b3 + (Quoted(value) + (b4 + tail)));
    var afterName := b2 + valued;
    assert name != "" ==> name[0] in name;
    assert b2 != "" ==> b2[0] in b2;
    assert (name + afterName)[0] == if name != "" then name[0] else afterName[0];
    if name == "" && b2 != "" {
      assert name + afterName == b2 + valued && b1 + (name + afterName) == b1 + b2 + valued;
      BlankIsTrimmed(b1 + b2, valued);
      SpanStops("", valued, IsNameChar);
      BlankIsTrimmed("", valued);
    } else {
      BlankIsTrimmed(b1, name + afterName);
      SpanStops(name, afterName, IsNameChar);
      BlankIsTrimmed(b2, valued);
    }
    ValueRoundTrip(b3, value, b4 + tail);
    BlankIsTrimmed(b4, tail);
    hide Quoted, Span, ParseValue, Lower;
  }

  // ---------- any links ----------

  /** Parameters as the printer writes them, and what follows. */
  function PrintedBefore(parameters: seq<(string, string)>, tail: string): string {
    if parameters == [] then tail
    else ";" + (" " + (parameters[0].0 + ("=" + (Quoted(parameters[0].1) + PrintedBefore(parameters[1..], tail)))))
  }

  /** The links behind the first one, with the comma that separates them from it. */
  function PrintedRest(links: seq<Link>): string
    requires links != []
    decreases |links|, 0
  {
    if |links| == 1 then "" else "," + (" " + PrintedLinks(links[1..]))
  }

  function PrintedLinks(links: seq<Link>): string
    decreases |links|, 1
  {
    if links == [] then ""
    else "<" + (links[0].target + (">" + PrintedBefore(links[0].parameters, PrintedRest(links))))
  }

  predicate Named(parameters: seq<(string, string)>) {
    forall i :: 0 <= i < |parameters| ==> IsName(parameters[i].0)
  }

  /** Links that can be told apart in print: no target with a closing angle bracket, no name with separators. */
  predicate Printable(links: seq<Link>) {
    forall i :: 0 <= i < |links| ==> '>' !in links[i].target && Named(links[i].parameters)
  }

  function Lowered(parameters: seq<(string, string)>): (r: seq<(string, string)>)
    ensures |r| == |parameters|
  {
    seq(|parameters|, i requires 0 <= i < |parameters| => (Lower(parameters[i].0), parameters[i].1))
  }

  function LowerLinks(links: seq<Link>): (r: seq<Link>)
    ensures |r| == |links|
  {
    seq(|links|, i requires 0 <= i < |links| => Link(links[i].target, Lowered(links[i].parameters)))
  }

  lemma AtSemicolon(s: string)
    requires StartsWith(s, ';')
    ensures var (parameter, rest) := ParseParameter(s[1..]);
            ParseParameters(s) ==
            if rest == "" || rest[0] == ',' then ([parameter], rest)
            else ([parameter] + ParseParameters(rest).0, ParseParameters(rest).1)
  {
    hide ParseParameter;
  }

  lemma EndOfParameters(tail: string)
    requires tail == "" || tail[0] == ','
    ensures ParseParameters(tail) == ([], tail)
  {
  }

  lemma PlainParameterRoundTrip(name: string, value: string, tail: string)
    requires IsName(name) && (tail == "" || !IsWhitespace(tail[0]))
    ensures ParseParameter(" " + (name + ("=" + (Quoted(value) + tail)))) == ((Lower(name), value), tail)
  {
    hide ParseParameter, Quoted;
    ParameterRoundTrip(" ", name, "", "", value, "", tail);
    var valued := "=" + (Quoted(value) + tail);
    assert "" + tail == tail && "" + (Quoted(value) + tail) == Quoted(value) + tail && "" + valued == valued;
  }

  /** Printed parameters are read back, with their names in lower case. */
  lemma {:induction false} ParametersRoundTrip(parameters: seq<(string, string)>, tail: string)
    requires Named(parameters) && (tail == "" || tail[0] == ',')
    ensures ParseParameters(PrintedBefore(parameters, tail)) == (Lowered(parameters), tail)
  {
    hide ParseParameter, ParseParameters, Quoted, Lower;
    if parameters == [] {
      EndOfParameters(tail);
    } else {
      var s, more := PrintedBefore(parameters, tail), PrintedBefore(parameters[1..], tail);
      PlainParameterRoundTrip(parameters[0].0, parameters[0].1, more);
      assert s[1..] == " " + (parameters[0].0 + ("=" + (Quoted(parameters[0].1) + more)));
      AtSemicolon(s);
      ParametersRoundTrip(parameters[1..], tail);
      assert Lowered(parameters) == [(Lower(parameters[0].0), parameters[0].1)] + Lowered(parameters[1..]);
      if parameters[1..] == [] {
        assert more == tail && Lowered(parameters[1..]) == [];
        assert Lowered(parameters) == [(Lower(parameters[0].0), parameters[0].1)];
      } else {
        assert more[0] == ';';
      }
    }
  }

  lemma AtAngle(s: string)
    requires StartsWith(s, '<')
    ensures var (target, rest) := Span(s[1..], IsInTarget);
            StartsWith(rest, '>') ==>
              ParseLinks(s) == [Link(target, ParseParameters(rest[1..]).0)]
                               + ParseLinks(AfterComma(Trim(ParseParameters(rest[1..]).1)))
  {
    hide Span, ParseParameters;
  }

  lemma OneLinkRoundTrip(link: Link, tail: string)
    requires '>' !in link.target && Named(link.parameters) && (tail == "" || tail[0] == ',')
    ensures
      ParseLinks("<" + (link.target + (">" + PrintedBefore(link.parameters, tail))))
      == [Link(link.target, Lowered(link.parameters))] + ParseLinks(AfterComma(tail))
  {
    hide ParseParameters, PrintedBefore, Span, Lowered, Named;
    var rest := ">" + PrintedBefore(link.parameters, tail);
    var s := "<" + (link.target + rest);
    SpanStops(link.target, rest, IsInTarget);
    ParametersRoundTrip(link.parameters, tail);
    assert s[1..] == link.target + rest && rest[1..] == PrintedBefore(link.parameters, tail);
    AtAngle(s);
    assert Trim(tail) == tail;
  }

  /** Printed links of any relation and with any parameters are read back, with the parameters' names in lower case. */
  lemma {:induction false} AnyLinksRoundTrip(links: seq<Link>)
    requires Printable(links)
    ensures ParseLinks(PrintedLinks(links)) == LowerLinks(links) && Trim(PrintedLinks(links)) == PrintedLinks(links)
  {
    hide ParseLinks, PrintedBefore, Lowered, Named;
    if links == [] {
      NoLinkEndsTheList("");
    } else {
      AnyLinksRoundTrip(links[1..]);
      OneLinkRoundTrip(links[0], PrintedRest(links));
      AfterPrintedComma(links);
      assert LowerLinks(links) == [Link(links[0].target, Lowered(links[0].parameters))] + LowerLinks(links[1..]);
    }
  }

  lemma AfterPrintedComma(links: seq<Link>)
    requires links != [] && Trim(PrintedLinks(links[1..])) == PrintedLinks(links[1..])
    ensures AfterComma(PrintedRest(links)) == PrintedLinks(links[1..])
  {
    hide PrintedBefore;
    if |links| > 1 {
      var next := PrintedLinks(links[1..]);
      assert ("," + (" " + next))[1..] == " " + next && (" " + next)[1..] == next;
    }
  }

  // ---------- the servers among the links ----------

  /** The first value under a name, told without a search. */
  lemma {:induction false} FirstValueIs(parameters: seq<(string, string)>, name: string)
    ensures
      match FirstValue(parameters, name)
      case Some(value) =>
        exists i :: 0 <= i < |parameters| && parameters[i] == (name, value) && forall k :: 0 <= k < i ==> parameters[k].0 != name
      case None => forall i :: 0 <= i < |parameters| ==> parameters[i].0 != name
  {
    if parameters != [] && parameters[0].0 != name {
      FirstValueIs(parameters[1..], name);
      var value := FirstValue(parameters[1..], name);
      if value.Some? {
        var i :| 0 <= i < |parameters| - 1 && parameters[1..][i] == (name, value.value)
                 && forall k :: 0 <= k < i ==> parameters[1..][k].0 != name;
        assert parameters[i + 1] == (name, value.value);
        assert forall k :: 0 < k < i + 1 ==> parameters[k] == parameters[1..][k - 1];
      } else {
        assert forall k :: 0 < k < |parameters| ==> parameters[k] == parameters[1..][k - 1];
      }
    }
  }

  /** The relation of a link is that of an ICE server; parameters of other names do not matter. */
  predicate Serves(parameters: seq<(string, string)>) {
    exists i :: 0 <= i < |parameters| && parameters[i] == ("rel", "ice-server")
  }

  lemma ServesIs(link: Link)
    ensures Serves(link.parameters) <==> IsIceServer(link)
  {
  }

  lemma {:induction false} ServersGrow(links: seq<Link>, link: Link)
    ensures ServersOf(links + [link]) == ServersOf(links) + ServerOf(link)
  {
    hide ServerOf;
    var all := links + [link];
    if links == [] {
      assert all == [link] && all[1..] == [];
    } else {
      assert all[1..] == links[1..] + [link] && all[0] == links[0];
      ServersGrow(links[1..], link);
    }
  }

  /** Which of the links are servers: every one of that relation, in order, and no other. */
  lemma ServersAreTheIceLinks(links: seq<Link>, link: Link)
    ensures
      ServersOf(links + [link])
      == ServersOf(links)
         + if Serves(link.parameters)
           then [IceServer(link.target, FirstValue(link.parameters, "username"), FirstValue(link.parameters, "credential"))]
           else []
  {
    hide FirstValue, ServersOf, Serves, IsIceServer;
    ServersGrow(links, link);
    ServesIs(link);
  }

  /** Links of other relations are left out of what is parsed, wherever they stand; the names are read in any case. */
  lemma OtherLinksAreLeftOut(links: seq<Link>)
    requires Printable(links)
    ensures Parse(PrintedLinks(links)) == ServersOf(LowerLinks(links))
    ensures (forall i :: 0 <= i < |links| ==> !Serves(Lowered(links[i].parameters))) ==> Parse(PrintedLinks(links)) == []
  {
    hide ParseLinks, PrintedLinks, Lowered, Serves;
    AnyLinksRoundTrip(links);
    if forall i :: 0 <= i < |links| ==> !Serves(Lowered(links[i].parameters)) {
      NoServers(LowerLinks(links));
    }
  }

  lemma {:induction false} NoServers(links: seq<Link>)
    requires forall i :: 0 <= i < |links| ==> !Serves(links[i].parameters)
    ensures ServersOf(links) == []
  {
    hide Serves, IsIceServer;
    if links != [] {
      ServesIs(links[0]);
      NoServers(links[1..]);
    }
  }

  // ---------- headers of ICE servers ----------

  function OptionalParameter(name: string, value: Option<string>): seq<(string, string)> {
    if value.None? then [] else [(name, value.value)]
  }

  function ParametersOf(h: IceServer): seq<(string, string)> {
    [("rel", "ice-server")] + OptionalParameter("username", h.username) + OptionalParameter("credential", h.credential)
  }

  function LinksOf(headers: seq<IceServer>): (links: seq<Link>)
    ensures |links| == |headers|
  {
    if headers == [] then [] else [Link(headers[0].url, ParametersOf(headers[0]))] + LinksOf(headers[1..])
  }

  lemma PrintedIsListed(h: IceServer, tail: string)
    ensures PrintedParameters(h) + tail == PrintedBefore(ParametersOf(h), tail)
  {
    hide PrintedParameter, PrintedBefore;
    var rel, username := OptionalParameter("rel", Some("ice-server")), OptionalParameter("username", h.username);
    var credential := OptionalParameter("credential", h.credential);
    OneListed("credential", h.credential, tail);
    OneListed("username", h.username, PrintedBefore(credential, tail));
    OneListed("rel", Some("ice-server"), PrintedBefore(username + credential, tail));
    ListedTwice(username, credential, tail);
    ListedTwice(rel, username + credential, tail);
    assert ParametersOf(h) == rel + (username + credential);
    Regroup(PrintedParameter("rel", Some("ice-server")), PrintedParameter("username", h.username),
            PrintedParameter("credential", h.credential), tail);
    Regroup3(PrintedParameter("username", h.username), PrintedParameter("credential", h.credential), tail);
  }

  lemma Regroup3(a: string, b: string, c: string)
    ensures a + b + c == a + (b + c)
  {
  }

  lemma OneListed(name: string, value: Option<string>, tail: string)
    ensures PrintedParameter(name, value) + tail == PrintedBefore(OptionalParameter(name, value), tail)
  {
    hide Quoted;
    if value.Some? {
      var quoted := Quoted(value.value);
      assert PrintedBefore([(name, value.value)], tail) == ";" + (" " + (name + ("=" + (quoted + tail))));
    } else {
      assert "" + tail == tail;
    }
  }

  lemma {:induction false} ListedTwice(a: seq<(string, string)>, b: seq<(string, string)>, tail: string)
    ensures PrintedBefore(a + b, tail) == PrintedBefore(a, PrintedBefore(b, tail))
  {
    hide Quoted;
    if a == [] {
      assert a + b == b;
    } else {
      assert (a + b)[1..] == a[1..] + b;
      ListedTwice(a[1..], b, tail);
    }
  }

  lemma {:induction false} PrintedAllIsPrinted(headers: seq<IceServer>)
    ensures PrintedAll(headers) == PrintedLinks(LinksOf(headers))
  {
    hide PrintedParameters, ParametersOf, PrintedBefore;
    if headers != [] {
      PrintedAllIsPrinted(headers[1..]);
      var h, list, more := headers[0], PrintedParameters(headers[0]), PrintedAll(headers[1..]);
      var links := LinksOf(headers);
      assert links[0] == Link(h.url, ParametersOf(h)) && links[1..] == LinksOf(headers[1..]);
      hide LinksOf;
      PrintedIsListed(h, PrintedRest(links));
      if |headers| == 1 {
        assert "<" + h.url + ">" + list == "<" + (h.url + (">" + (list + "")));
      } else {
        assert "<" + h.url + ">" + list + ", " + more == "<" + (h.url + (">" + (list + ("," + (" " + more)))));
      }
    }
  }

  predicate CleanUrls(headers: seq<IceServer>) {
    forall i :: 0 <= i < |headers| ==> '>' !in headers[i].url
  }

  lemma PlainNames(h: IceServer)
    ensures Named(ParametersOf(h)) && Lowered(ParametersOf(h)) == ParametersOf(h)
  {
    assert Lower("rel") == "rel" && Lower("username") == "username" && Lower("credential") == "credential";
    assert IsName("rel") && IsName("username") && IsName("credential");
    hide IsNameChar, LowerChar;
  }

  lemma {:induction false} LinksArePrintable(headers: seq<IceServer>)
    requires CleanUrls(headers)
    ensures Printable(LinksOf(headers)) && LowerLinks(LinksOf(headers)) == LinksOf(headers)
  {
    hide ParametersOf, Lowered, Named;
    if headers != [] {
      PlainNames(headers[0]);
      LinksArePrintable(headers[1..]);
      var links := LinksOf(headers);
      assert links[0] == Link(headers[0].url, ParametersOf(headers[0])) && links[1..] == LinksOf(headers[1..]);
      forall i | 0 <= i < |links|
        ensures '>' !in links[i].target && Named(links[i].parameters) && LowerLinks(links)[i] == links[i]
      {
        if i > 0 {
          assert links[i] == LinksOf(headers[1..])[i - 1] && LowerLinks(LinksOf(headers[1..]))[i - 1] == links[i];
        }
      }
    }
  }

  lemma LinksRoundTrip(headers: seq<IceServer>)
    requires CleanUrls(headers)
    ensures ParseLinks(PrintedAll(headers)) == LinksOf(headers)
    ensures Trim(PrintedAll(headers)) == PrintedAll(headers)
  {
    hide ParseLinks, PrintedLinks, LowerLinks, Printable;
    PrintedAllIsPrinted(headers);
    LinksArePrintable(headers);
    AnyLinksRoundTrip(LinksOf(headers));
  }

  lemma FirstValueOfAppended(a: seq<(string, string)>, b: seq<(string, string)>, name: string)
    ensures FirstValue(a + b, name) == if FirstValue(a, name).Some? then FirstValue(a, name) else FirstValue(b, name)
  {
    if a == [] {
      assert a + b == b;
    } else {
      assert (a + b)[1..] == a[1..] + b;
    }
  }

  lemma ParametersAreRead(h: IceServer)
    ensures IsIceServer(Link(h.url, ParametersOf(h)))
    ensures FirstValue(ParametersOf(h), "username") == h.username
    ensures FirstValue(ParametersOf(h), "credential") == h.credential
  {
    var rel := [("rel", "ice-server")];
    var username, credential := OptionalParameter("username", h.username), OptionalParameter("credential", h.credential);
    assert ParametersOf(h)[0] == ("rel", "ice-server");
    NamesDiffer();
    FirstValueOfAppended(rel + username, credential, "username");
    FirstValueOfAppended(rel, username, "username");
    FirstValueOfAppended(rel + username, credential, "credential");
    FirstValueOfAppended(rel, username, "credential");
  }

  lemma NamesDiffer()
    ensures "rel" != "username" && "rel" != "credential" && "username" != "credential"
  {
    assert "rel"[0] == 'r' && "username"[0] == 'u' && "credential"[0] == 'c';
  }

  lemma {:induction false} ServersOfLinks(headers: seq<IceServer>)
    ensures ServersOf(LinksOf(headers)) == headers
  {
    hide ParametersOf;
    if headers != [] {
      ParametersAreRead(headers[0]);
      ServersOfLinks(headers[1..]);
      assert LinksOf(headers)[1..] == LinksOf(headers[1..]);
    }
  }

  /** No target that the parser reads contains a closing angle bracket. */
  lemma {:induction false} ParsedTargetsAreClean(s: string)
    ensures forall i :: 0 <= i < |ParseLinks(s)| ==> '>' !in ParseLinks(s)[i].target
    decreases |s|
  {
    hide ParseParameters;
    if s != "" && StartsWith(Trim(s), '<') {
      var (target, rest) := Span(Trim(s)[1..], IsInTarget);
      if StartsWith(rest, '>') {
        ParsedTargetsAreClean(AfterComma(Trim(ParseParameters(rest[1..]).1)));
      }
    }
  }

  lemma {:induction false} ServersAreClean(links: seq<Link>)
    requires forall i :: 0 <= i < |links| ==> '>' !in links[i].target
    ensures CleanUrls(ServersOf(links))
  {
    if links != [] {
      ServersAreClean(links[1..]);
    }
  }

  /** Printing and parsing again gives the same list exactly if no url contains a closing angle bracket. */
  lemma RoundTrip(headers: seq<IceServer>)
    ensures Parse(PrintedAll(headers)) == headers <==> CleanUrls(headers)
  {
    if CleanUrls(headers) {
      LinksRoundTrip(headers);
      ServersOfLinks(headers);
    }
    ParsedTargetsAreClean(Trim(PrintedAll(headers)));
    ServersAreClean(ParseLinks(Trim(PrintedAll(headers))));
  }

  // ---------- what is not read ----------

  /** A quoted string without a closing quote is read to the end, with or without a backslash there. */
  lemma {:induction false} UnclosedQuoteIsReadToTheEnd(text: string)
    ensures ParseQuotedBody(Escaped(text)) == (text, "") && ParseQuotedBody(Escaped(text) + "\\") == (text, "")
  {
    if text == "" {
      assert "" + "\\" == "\\";
    } else {
      UnclosedQuoteIsReadToTheEnd(text[1..]);
      var inner := Escaped(text[1..]);
      assert text == [text[0]] + text[1..];
      if text[0] == '\\' || text[0] == '"' {
        assert Escaped(text)[2..] == inner && (Escaped(text) + "\\")[2..] == inner + "\\";
      } else {
        assert Escaped(text)[1..] == inner && (Escaped(text) + "\\")[1..] == inner + "\\";
      }
    }
  }

  /** What does not start with an angle bracket, or has none to close it, is no link and ends the list. */
  lemma NoLinkEndsTheList(s: string)
    requires !StartsWith(Trim(s), '<') || '>' !in s
    ensures ParseLinks(s) == []
  {
    hide ParseParameters;
    if StartsWith(Trim(s), '<') {
      var (target, rest) := Span(Trim(s)[1..], IsInTarget);
      TrimIsPart(s);
      assert Trim(s) == ['<'] + (target + rest);
      assert rest != "" ==> rest[0] in Trim(s);
    }
  }

  lemma {:induction false} TrimIsPart(s: string)
    ensures forall c :: c in Trim(s) ==> c in s
  {
    if s != "" && IsWhitespace(s[0]) {
      TrimIsPart(s[1..]);
    }
  }

  /** A link whose last parameter has a value that is not quoted. */
  function Unquoted(target: string, name: string, value: string): string {
    "<" + (target + (">" + (";" + (" " + (name + ("=" + value))))))
  }

  lemma UnquotedLink(target: string, name: string, value: string)
    requires '>' !in target && IsName(name)
    requires value != "" && value[0] != '"' && value[0] != '<' && !IsSeparator(value[0]) && !IsWhitespace(value[0])
    ensures ParseLinks(Unquoted(target, name, value)) == [Link(target, [(Lower(name), "")])] + ParseLinks(value)
    ensures Trim(Unquoted(target, name, value)) == Unquoted(target, name, value)
  {
    hide ParseParameter, ParseParameters, Span, ParseLinks, IsName, Lower;
    var parameter := " " + (name + ("=" + value));
    var rest := ">" + (";" + parameter);
    SpanStops(target, rest, IsInTarget);
    assert (target + rest) == Unquoted(target, name, value)[1..];
    assert rest[1..] == ";" + parameter && (";" + parameter)[1..] == parameter;
    UnquotedValue(name, value);
    AtSemicolon(";" + parameter);
    NoParameters(value);
    assert [(Lower(name), "")] + [] == [(Lower(name), "")];
    AtAngle(Unquoted(target, name, value));
    assert AfterComma(Trim(value)) == value;
  }

  /**
   A value that is not quoted is not read, and neither is anything behind it: the link has an empty value there and is
   the last one of the list. In particular a server given as `rel=ice-server` is not found.
   */
  lemma UnquotedValueEndsTheList(target: string, name: string, value: string)
    requires '>' !in target && IsName(name)
    requires value != "" && value[0] != '"' && value[0] != '<' && !IsSeparator(value[0]) && !IsWhitespace(value[0])
    ensures ParseLinks(Unquoted(target, name, value)) == [Link(target, [(Lower(name), "")])]
    ensures Parse(Unquoted(target, name, value)) == []
  {
    hide ParseLinks, Unquoted, Lower;
    UnquotedLink(target, name, value);
    NoLinkEndsTheList(value);
    var link := Link(target, [(Lower(name), "")]);
    assert [link] + [] == [link];
    OneLink(link);
  }

  lemma ReadAs(links: seq<Link>, headers: seq<IceServer>)
    requires Printable(links) && LowerLinks(links) == LinksOf(headers)
    ensures Parse(PrintedLinks(links)) == headers
  {
    hide ParseLinks, PrintedLinks, LowerLinks, LinksOf, Printable, ServersOf;
    AnyLinksRoundTrip(links);
    ServersOfLinks(headers);
  }

  /** The names of parameters may be in capitals. */
  lemma NamesInCapitals(h: IceServer)
    requires '>' !in h.url
    ensures
      var parameters := [("REL", "ice-server")] + OptionalParameter("USERNAME", h.username) + OptionalParameter("Credential", h.credential);
      Parse(PrintedLinks([Link(h.url, parameters)])) == [h]
  {
    hide Parse, PrintedLinks, Lowered, Named, ParametersOf;
    var parameters := [("REL", "ice-server")] + OptionalParameter("USERNAME", h.username) + OptionalParameter("Credential", h.credential);
    CapitalsAreLowered(h);
    assert [h][1..] == [];
    assert LowerLinks([Link(h.url, parameters)]) == LinksOf([h]);
    ReadAs([Link(h.url, parameters)], [h]);
  }

  lemma CapitalsAreLowered(h: IceServer)
    ensures
      var parameters := [("REL", "ice-server")] + OptionalParameter("USERNAME", h.username) + OptionalParameter("Credential", h.credential);
      Named(parameters) && Lowered(parameters) == ParametersOf(h)
  {
    assert Lower("REL") == "rel" && Lower("USERNAME") == "username" && Lower("Credential") == "credential";
    assert IsName("REL") && IsName("USERNAME") && IsName("Credential");
    hide IsNameChar, LowerChar, Lower, IsName;
  }

  lemma OneLink(link: Link)
    requires |link.parameters| == 1 && link.parameters[0].1 == ""
    ensures ServersOf([link]) == []
  {
    assert [link][1..] == [];
  }

  lemma NoParameters(s: string)
    requires s != "" && !IsWhitespace(s[0]) && s[0] != ';'
    ensures ParseParameters(s) == ([], s)
  {
  }

  lemma UnquotedValue(name: string, value: string)
    requires IsName(name)
    requires value != "" && value[0] != '"' && !IsSeparator(value[0]) && !IsWhitespace(value[0])
    ensures ParseParameter(" " + (name + ("=" + value))) == ((Lower(name), ""), value)
  {
    var valued := "=" + value;
    assert name != "" ==> name[0] in name;
    assert (name + valued)[0] == if name != "" then name[0] else '=';
    BlankIsTrimmed(" ", name + valued);
    SpanStops(name, valued, IsNameChar);
    BlankIsTrimmed("", valued);
    assert "" + valued == valued && valued[1..] == value;
    SpanStops("", value, IsSeparator);
    assert "" + value == value;
  }
}
