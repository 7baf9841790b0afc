/** The parser as the program runs it: a cursor moves over the text. It computes LinkHeader.Parse. */
module LinkParser {
  import opened Wrappers
  import opened LinkHeader

  class Cursor {
    var rest: string

    constructor (text: string)
      ensures rest == text
    {
      rest := text;
    }

    function Next(): Option<char>
      reads this
    {
      if rest == "" then None else Some(rest[0])
    }

    method Take() returns (c: Option<char>)
      modifies this
      ensures c == old(Next())
      ensures rest == if old(rest) == "" then "" else old(rest)[1..]
    {
      c := Next();
      if c.Some? {
        rest := rest[1..];
      }
    }

    method TakeWhitespaces()
      modifies this
      ensures rest == Trim(old(rest))
    {
      while rest != "" && IsWhitespace(rest[0])
        invariant Trim(rest) == Trim(old(rest))
        decreases |rest|
      {
        rest := rest[1..];
      }
    }

    method TakeWhile(condition: char -> bool) returns (taken: string)
      modifies this
      ensures (taken, rest) == Span(old(rest), condition)
    {
      taken := "";
      while rest != "" && condition(rest[0])
        invariant taken + Span(rest, condition).0 == Span(old(rest), condition).0
        invariant Span(rest, condition).1 == Span(old(rest), condition).1
        decreases |rest|
      {
        Reassociate(taken, [rest[0]], Span(rest[1..], condition).0);
        taken := taken + [rest[0]];
        rest := rest[1..];
      }
      assert taken + "" == taken;
    }

    method ParseQuotedString() returns (output: string)
      modifies this
      ensures (output, rest) == LinkHeader.ParseQuotedString(old(rest))
    {
      output := "";
      if Next() != Some('"') {
        return;
      }
      var _ := Take();
      ghost var body := rest;
      while rest != ""
        invariant output + ParseQuotedBody(rest).0 == ParseQuotedBody(body).0
        invariant ParseQuotedBody(rest).1 == ParseQuotedBody(body).1
        decreases |rest|
      {
        var c := Take();
        match c.value {
          case '\\' =>
            if Next() == None {
              assert output + "" == output;
              return;
            }
            var escaped := Take();
            Reassociate(output, [escaped.value], ParseQuotedBody(rest).0);
            output := output + [escaped.value];
          case '"' =>
            assert output + "" == output;
            return;
          case plain =>
            Reassociate(output, [plain], ParseQuotedBody(rest).0);
            output := output + [plain];
        }
      }
      assert output + "" == output;
    }

    /** The value of a parameter, from behind its name. */
    method ParseParameterValue() returns (value: string)
      modifies this
      ensures (value, rest) == ParseValue(old(rest))
    {
      value := "";
      if Next() == Some('=') {
        var _ := Take();
        TakeWhitespaces();
        if Next() == Some('"') {
          value := ParseQuotedString();
        } else {
          value := TakeWhile(IsSeparator);
        }
      }
    }

    method ParseParameters() returns (parameters: seq<(string, string)>)
      modifies this
      ensures (parameters, rest) == LinkHeader.ParseParameters(old(rest))
    {
      hide Span, Trim, ParseValue;
      parameters := [];
      while rest != ""
        invariant parameters + LinkHeader.ParseParameters(rest).0 == LinkHeader.ParseParameters(old(rest)).0
        invariant LinkHeader.ParseParameters(rest).1 == LinkHeader.ParseParameters(old(rest)).1
        decreases |rest|
      {
        ghost var text := rest;
        TakeWhitespaces();
        if Next() != Some(';') {
          assert parameters + [] == parameters;
          return;
        }
        AtSemicolon(rest);
        assert LinkHeader.ParseParameters(text) == LinkHeader.ParseParameters(rest) by { TrimTwice(text); }
        var _ := Take();
        TakeWhitespaces();
        var name := TakeWhile(IsNameChar);
        TakeWhitespaces();
        var value := ParseParameterValue();
        name := Lower(name);
        TakeWhitespaces();
        Reassociate(parameters, [(name, value)], LinkHeader.ParseParameters(rest).0);
        parameters := parameters + [(name, value)];
        if Next() == None || Next() == Some(',') {
          return;
        }
      }
      assert parameters + [] == parameters;
    }

    /** One link with the comma after it; none where the list ends. */
    method ParseOneLink() returns (link: Option<Link>)
      modifies this
      ensures match LinkHeader.ParseLink(old(rest))
              case None => link.None?
              case Some((l, r)) => link == Some(l) && rest == r
    {
      hide Span, Trim, LinkHeader.ParseParameters;
      TakeWhitespaces();
      if Next() != Some('<') {
        return None;
      }
      var _ := Take();
      var target := TakeWhile(IsInTarget);
      if Next() != Some('>') {
        return None;
      }
      var _ := Take();
      var parameters := ParseParameters();
      TakeWhitespaces();
      if Next() == Some(',') {
        var _ := Take();
        TakeWhitespaces();
      }
      return Some(Link(target, parameters));
    }

    method ParseLinkHeader() returns (links: seq<Link>)
      modifies this
      ensures links == ParseLinks(Trim(old(rest)))
    {
      hide Trim, ParseLinks, LinkHeader.ParseLink;
      TakeWhitespaces();
      links := [];
      UnfoldLinks("");
      while rest != ""
        invariant links + ParseLinks(rest) == ParseLinks(Trim(old(rest)))
        decreases |rest|
      {
        UnfoldLinks(rest);
        ghost var before, found := rest, links;
        var link := ParseOneLink();
        if link.None? {
          return;
        }
        links := links + [link.value];
        assert found + ([link.value] + ParseLinks(rest)) == links + ParseLinks(rest);
      }
    }
  }

  lemma Reassociate<T>(a: seq<T>, b: seq<T>, c: seq<T>)
    ensures (a + b) + c == a + (b + c)
  {
  }

  lemma TrimTwice(text: string)
    ensures Trim(Trim(text)) == Trim(text)
  {
  }

  /** The first value stored under the name. */
  method Find(parameters: seq<(string, string)>, name: string) returns (value: Option<string>)
    ensures value == FirstValue(parameters, name)
  {
    var i := 0;
    while i < |parameters|
      invariant 0 <= i <= |parameters|
      invariant FirstValue(parameters[i..], name) == FirstValue(parameters, name)
    {
      if parameters[i].0 == name {
        return Some(parameters[i].1);
      }
      i := i + 1;
    }
    return None;
  }

  method Parse(text: string) returns (headers: seq<IceServer>)
    ensures headers == LinkHeader.Parse(text)
  {
    hide ParseLinks, FirstValue;
    var cursor := new Cursor(text);
    var links := cursor.ParseLinkHeader();
    headers := [];
    var i := 0;
    while i < |links|
      invariant 0 <= i <= |links|
      invariant headers + ServersOf(links[i..]) == ServersOf(links)
    {
      if IsIceServer(links[i]) {
        var username := Find(links[i].parameters, "username");
        var credential := Find(links[i].parameters, "credential");
        headers := headers + [IceServer(links[i].target, username, credential)];
      }
      i := i + 1;
    }
  }

  lemma UnfoldLinks(s: string)
    ensures
      ParseLinks(s) ==
        if s == "" then []
        else match ParseLink(s) case None => [] case Some((link, rest)) => [link] + ParseLinks(rest)
  {
  }
}
