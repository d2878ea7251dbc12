/** Which URL objects come back when their normal form is parsed into a fresh object. */
module UrlRoundTrip {
  import opened Basics
  import opened UrlText
  import opened UrlParser
  import opened UrlImage
  import opened UrlStages

  // The text begins with a blank.
  predicate BlankFirst(f: Fields) {
    && f.scheme == ""
    && (if f.host != "" then f.user == "" && f.host[0] in SPACES
        else f.ipv6 != "" && f.user != "" && f.user[0] in SPACES)
  }

  // The text ends with a blank.
  predicate BlankLast(f: Fields) {
    && f.fragment == "" && f.query == map[]
    && (if f.path != "" then f.path[|f.path| - 1] in SPACES
        else f.host != "" && f.port == "" && f.host[|f.host| - 1] in SPACES)
  }

  // Exactly the objects that come back.
  predicate RoundTrips(f: Fields) {
    && Readable(f) && AuthorityOk(f) && TailOk(f)
    && (f.scheme == "" ==> FindMark(f.path) == |f.path|)
    && !BlankFirst(f) && !BlankLast(f)
  }

  // What is printed after the scheme.
  function RestText(f: Fields, order: seq<string>): string
    requires forall k :: k in order ==> k in f.query
  {
    AuthorityText(f) + TailText(f, order)
  }

  lemma {:induction false} PrintedParts(f: Fields, order: seq<string>)
    requires forall k :: k in order ==> k in f.query
    ensures Printed(f, order) == SchemeText(f) + RestText(f, order)
  {
    var s, a, q := SchemeText(f), AuthorityText(f), Pairs('?', order, f.query);
    Associate(s + a + f.path, q, FragmentText(f));
    Associate(s + a, f.path, q + FragmentText(f));
    Associate(s, a, TailText(f, order));
  }

  // ---- the ends of the text ----

  lemma {:induction false} UserFirst(u: string, p: string)
    requires u != ""
    ensures UserText(u, p) != "" && UserText(u, p)[0] == u[0] && UserText(u, p)[|UserText(u, p)| - 1] == '@'
  {}

  lemma {:induction false} CodedFirst(user: string, password: string)
    requires user != ""
    ensures
      var u := UserText(Encoded(user), Encoded(password));
      u != "" && u[0] !in SPACES + {':'} && u[|u| - 1] == '@'
  {
    EncodedEmptyIff(user);
    EncodedAvoids(user, SPACES + {':'});
    UserFirst(Encoded(user), Encoded(password));
  }

  lemma {:induction false} FirstChar(f: Fields, order: seq<string>)
    requires Readable(f) && forall k :: k in order ==> k in f.query
    ensures var rest := RestText(f, order); rest != "" && rest[0] != ':'
    ensures f.scheme == "" && !BlankFirst(f) ==> RestText(f, order)[0] !in SPACES
  {
    var a := AuthorityText(f);
    if f.host != "" {
      HostText(f);
      if f.user != "" {
        CodedFirst(f.user, f.password);
      } else {
        assert a == WithPort(f.host, f.port) && a[0] == f.host[0];
        assert f.host[0] !in {':'};
      }
    } else if f.ipv6 != "" {
      Ipv6Text(f);
      if f.user != "" {
        UserFirst(f.user, f.password);
        assert a[0] == f.user[0] && f.user[0] !in {'@', ':'};
      } else {
        assert a[0] == '[';
      }
    } else {
      assert RestText(f, order)[0] == f.path[0];
    }
  }

  lemma {:induction false} NonBlankEnd(s: string)
    requires s != "" && Avoids(s, SPACES)
    ensures s[|s| - 1] !in SPACES
  {}

  lemma {:induction false} LastOfAuthority(f: Fields)
    requires Readable(f) && AuthorityText(f) != ""
    ensures var a := AuthorityText(f); a[|a| - 1] != ':'
    ensures var a := AuthorityText(f); f.host == "" || f.port != "" ==> a[|a| - 1] !in SPACES
    ensures var a := AuthorityText(f); f.host != "" && f.port == "" ==> a[|a| - 1] == f.host[|f.host| - 1]
  {
    if f.host != "" {
      HostText(f);
      LastWithPort(UserText(Encoded(f.user), Encoded(f.password)), f.host, f.port);
      assert f.host[|f.host| - 1] !in {':'};
      if f.port != "" { assert IsDigit(f.port[|f.port| - 1]); }
    }
  }

  lemma {:induction false} LastWithPort(u: string, h: string, port: string)
    requires h != ""
    ensures
      var a := u + WithPort(h, port);
      a != "" && a[|a| - 1] == if port == "" then h[|h| - 1] else port[|port| - 1]
  {}

  lemma {:induction false} CodedTail(f: Fields, order: seq<string>, cs: set<char>)
    requires forall k :: k in order ==> k in f.query
    requires cs !! {'?', '=', '&', '#'} && forall c :: c in cs ==> !IsUnreserved(c) && c != '%'
    ensures Avoids(Pairs('?', order, f.query) + FragmentText(f), cs)
  {
    PairsAvoid('?', order, f.query, cs);
    EncodedAvoids(f.fragment, cs);
    AvoidsConcat("#", Encoded(f.fragment), cs);
    AvoidsConcat(Pairs('?', order, f.query), FragmentText(f), cs);
  }

  lemma {:induction false} CodedTailEmpty(f: Fields, order: seq<string>)
    requires Enumerates(order, f.query)
    ensures Pairs('?', order, f.query) + FragmentText(f) == "" <==> f.query == map[] && f.fragment == ""
  {
    if f.query == map[] {
      assert forall i :: 0 <= i < |order| ==> order[i] in order;
    } else {
      var k :| k in f.query;
      assert k in order;
    }
  }

  lemma {:induction false} LastChar(f: Fields, order: seq<string>)
    requires Readable(f) && Enumerates(order, f.query) && !BlankLast(f)
    ensures var rest := RestText(f, order); rest != "" && rest[|rest| - 1] !in SPACES
  {
    var coded := Pairs('?', order, f.query) + FragmentText(f);
    FirstChar(f, order);
    CodedTail(f, order, SPACES);
    CodedTailEmpty(f, order);
    LastOfThree(AuthorityText(f), f.path, coded);
    if coded != "" {
      NonBlankEnd(coded);
    } else if f.path == "" {
      LastOfAuthority(f);
    }
  }

  lemma {:induction false} LastOfThree(a: string, b: string, c: string)
    requires a + (b + c) != ""
    ensures
      var t := a + (b + c);
      && (c != "" ==> t[|t| - 1] == c[|c| - 1])
      && (c == "" && b != "" ==> t[|t| - 1] == b[|b| - 1])
      && (c == "" && b == "" ==> a != "" && t[|t| - 1] == a[|a| - 1])
  {}

  lemma {:induction false} SchemeEnds(f: Fields)
    requires ValidScheme(f.scheme) && f.scheme != ""
    ensures var s := SchemeText(f); s[0] !in SPACES && s[|s| - 1] !in SPACES && Avoids(f.scheme, {':'})
  {
    assert IsAlpha(f.scheme[0]) || IsDigit(f.scheme[0]) || f.scheme[0] in {'+', '-', '.'};
  }

  lemma {:induction false} Untrimmed(f: Fields, order: seq<string>)
    requires Readable(f) && Enumerates(order, f.query) && !BlankFirst(f) && !BlankLast(f)
    ensures Trimmed(Printed(f, order)) == Printed(f, order)
  {
    var t := Printed(f, order);
    PrintedParts(f, order);
    FirstChar(f, order);
    LastChar(f, order);
    if f.scheme != "" { SchemeEnds(f); }
    EndsUntrimmed(t);
  }

  lemma {:induction false} EndsUntrimmed(t: string)
    requires t != "" && t[0] !in SPACES && t[|t| - 1] !in SPACES
    ensures Trimmed(t) == t
  {
    TrimmedAfter(t, "");
    assert t + "" == t;
  }

  // ---- marks ----

  // Without a scheme, the only place for "://" is the path.
  lemma {:induction false} MarkInRest(f: Fields, order: seq<string>)
    requires Readable(f) && forall k :: k in order ==> k in f.query
    ensures FindMark(RestText(f, order)) < |RestText(f, order)| <==> FindMark(f.path) < |f.path|
  {
    var a, s := AuthorityText(f), RestText(f, order);
    MarkIff(s);
    MarkIff(f.path);
    if i: nat :| MarkAt(f.path, i) { MarkShifts(a, f.path, Pairs('?', order, f.query) + FragmentText(f), i); }
    if i: nat :| MarkAt(s, i) { MarkIsInPath(f, order, i); }
  }

  lemma {:induction false} MarkShifts(a: string, b: string, c: string, i: nat)
    requires MarkAt(b, i)
    ensures MarkAt(a + (b + c), |a| + i)
  {}

  lemma {:induction false} AuthorityBeforePath(f: Fields)
    requires Readable(f)
    ensures var a := AuthorityText(f); Avoids(a, TAIL) && (a == "" || a[|a| - 1] != ':')
  {
    AuthorityAvoids(f);
    if AuthorityText(f) != "" { LastOfAuthority(f); }
  }

  // The coded part of the tail.
  lemma {:induction false} NoColonInTail(f: Fields, order: seq<string>) returns (c: string)
    requires forall k :: k in order ==> k in f.query
    ensures RestText(f, order) == AuthorityText(f) + (f.path + c) && Avoids(c, {':'}) && (c == "" || c[0] != '/')
  {
    c := Pairs('?', order, f.query) + FragmentText(f);
    CodedTail(f, order, {':'});
  }

  lemma {:induction false} MarkIsPastAuthority(f: Fields, order: seq<string>, i: nat)
    requires (forall k :: k in order ==> k in f.query) && MarkAt(RestText(f, order), i)
    requires var a := AuthorityText(f); Avoids(a, TAIL) && (a == "" || a[|a| - 1] != ':')
    ensures i >= |AuthorityText(f)| && MarkAt(f.path, i - |AuthorityText(f)|)
  {
    var c := NoColonInTail(f, order);
    assert MarkAt(AuthorityText(f) + (f.path + c), i);
    MarkIsInMiddle(AuthorityText(f), f.path, c, i);
  }

  lemma {:induction false} MarkIsInPath(f: Fields, order: seq<string>, i: nat)
    requires Readable(f) && (forall k :: k in order ==> k in f.query) && MarkAt(RestText(f, order), i)
    ensures i >= |AuthorityText(f)| && MarkAt(f.path, i - |AuthorityText(f)|)
  {
    AuthorityBeforePath(f);
    MarkIsPastAuthority(f, order, i);
  }

  lemma {:induction false} MarkIsInMiddle(a: string, b: string, c: string, i: nat)
    requires Avoids(a, TAIL) && (a == "" || a[|a| - 1] != ':')
    requires Avoids(c, {':'}) && (c == "" || c[0] != '/') && MarkAt(a + (b + c), i)
    ensures i >= |a| && MarkAt(b, i - |a|)
  {
    var s := a + (b + c);
    assert forall j :: 0 <= j < |a| ==> s[j] == a[j] != '/';
    assert forall j :: |a| <= j < |a| + |b| ==> s[j] == b[j - |a|];
    assert forall j :: |a| + |b| <= j < |s| ==> s[j] == c[j - |a| - |b|] != ':';
  }

  // ---- the parse, once the text is trimmed ----

  lemma {:induction false} AfterScheme(scheme: string, text: string, rest: string)
    requires ValidScheme(scheme) && Avoids(scheme, {':'}) && Trimmed(text) == scheme + "://" + rest
    ensures ParseInto(FRESH, text) ==
      var g := FRESH.(scheme := Lower(scheme));
      if rest == "" then Outcome(false, g) else RestInto(g, rest)
  {
    var s := Trimmed(text);
    MarkAfter(scheme, rest);
    assert s[..|scheme|] == scheme && s[|scheme| + 3..] == rest;
  }

  // A mark that is not at the front makes a scheme.
  lemma {:induction false} MakesScheme(text: string)
    requires var s := Trimmed(text); 0 < FindMark(s) < |s|
    ensures ParseInto(FRESH, text).ok ==> ParseInto(FRESH, text).fields.scheme != ""
  {
    var s := Trimmed(text);
    var pos := FindMark(s);
    assert |Lower(s[..pos])| == pos;
    SchemeStays(FRESH.(scheme := Lower(s[..pos])), s[pos + 3..]);
  }

  // The rest is parsed after the scheme, or the object does not come back.
  lemma {:induction false} Peel(f: Fields, text: string, rest: string)
    requires Readable(f) && Trimmed(text) == SchemeText(f) + rest && (f.scheme == "" ==> !MarkAt(rest, 0))
    ensures f.scheme != "" && rest != "" ==> ParseInto(FRESH, text) == RestInto(FRESH.(scheme := f.scheme), rest)
    ensures f.scheme == "" && rest != "" && FindMark(rest) == |rest| ==> ParseInto(FRESH, text) == RestInto(FRESH, rest)
    ensures ParseInto(FRESH, text) == Outcome(true, f) ==>
      rest != "" && (f.scheme == "" ==> FindMark(rest) == |rest|)
  {
    if f.scheme != "" {
      SchemeEnds(f);
      AfterScheme(f.scheme, text, rest);
    } else {
      assert SchemeText(f) + rest == rest;
      MarkIff(rest);
      if FindMark(rest) < |rest| { MakesScheme(text); }
    }
  }

  lemma {:induction false} SchemeStays(g: Fields, s: string)
    ensures RestInto(g, s).fields.scheme == g.scheme
  {
    var pos := Find(s, TAIL);
    AuthorityKeeps(g, s[..pos]);
    TailImage(AuthorityInto(g, s[..pos]).fields, s[pos..]);
  }

  // Without blanks at the ends, the stages decide.
  lemma {:induction false} UntrimmedIff(f: Fields, order: seq<string>)
    requires Readable(f) && Enumerates(order, f.query) && !BlankFirst(f) && !BlankLast(f)
    ensures
      ParseInto(FRESH, Printed(f, order)) == Outcome(true, f) <==>
        AuthorityOk(f) && TailOk(f) && (f.scheme == "" ==> FindMark(f.path) == |f.path|)
  {
    Untrimmed(f, order);
    PrintedParts(f, order);
    FirstChar(f, order);
    MarkInRest(f, order);
    Peel(f, Printed(f, order), RestText(f, order));
    RestStage(f, order);
  }

  // ---- blanks at the ends ----

  // The trimmed text after the scheme.
  function RestTrimmed(scheme: string, rest: string): string {
    if scheme == "" then Trimmed(rest) else TrimmedBack(rest)
  }

  lemma {:induction false} TrimmedParts(f: Fields, order: seq<string>)
    requires Readable(f) && forall k :: k in order ==> k in f.query
    ensures Trimmed(Printed(f, order)) == SchemeText(f) + RestTrimmed(f.scheme, RestText(f, order))
  {
    var s, rest := SchemeText(f), RestText(f, order);
    PrintedParts(f, order);
    if f.scheme == "" {
      assert s + rest == rest && s + Trimmed(rest) == Trimmed(rest);
    } else {
      SchemeEnds(f);
      TrimmedAfter(s, rest);
    }
  }

  lemma {:induction false} TrimmedAvoids(s: string, cs: set<char>)
    requires Avoids(s, cs)
    ensures Avoids(TrimmedBack(s), cs) && Avoids(TrimmedFront(s), cs)
  {
    var post := BackSplits(s);
    var pre := FrontSplits(s);
    AvoidsConcat(TrimmedBack(s), post, cs);
    AvoidsConcat(pre, TrimmedFront(s), cs);
  }

  // A tail is trimmed at its end only.
  lemma {:induction false} BackOfTail(a: string, tail: string)
    requires tail != "" && tail[0] in TAIL
    ensures TrimmedBack(a + tail) == a + TrimmedBack(tail)
    ensures TrimmedBack(tail) != "" && TrimmedBack(tail)[0] == tail[0]
  {
    var t0, t1 := tail[..1], tail[1..];
    assert tail == t0 + t1;
    BackAfter(t0, t1);
    Associate(a, t0, t1);
    assert (a + t0)[|a + t0| - 1] == tail[0];
    BackAfter(a + t0, t1);
    Associate(a, t0, TrimmedBack(t1));
  }

  // What is left of a host at the end of the text, or in front of something.
  function HostBack(h: string, port: string, tail: string): string {
    if port == "" && tail == "" then TrimmedBack(h) else h
  }

  lemma {:induction false} BackOfHost(u: string, h: string, port: string, tail: string)
    requires (u == "" || u[|u| - 1] == '@') && Digits(port) && (tail == "" || tail[0] in TAIL)
    ensures TrimmedBack(u + (WithPort(h, port) + tail)) ==
      u + (WithPort(HostBack(h, port, tail), port) + TrimmedBack(tail))
  {
    var a := WithPort(h, port);
    if tail != "" {
      BackOfTail(u + a, tail);
      Associate(u, a, tail);
      Associate(u, a, TrimmedBack(tail));
    } else if port != "" {
      assert IsDigit(port[|port| - 1]) && a + tail == a;
      assert (u + a)[|u + a| - 1] == port[|port| - 1];
      BackAfter(u + a, "");
      assert u + a + "" == u + a && u + a + TrimmedBack("") == u + (a + "");
    } else {
      assert a + tail == h && TrimmedBack(h) + "" == TrimmedBack(h);
      if u != "" { BackAfter(u, h); } else { assert u + h == h && u + TrimmedBack(h) == TrimmedBack(h); }
    }
  }

  lemma {:induction false} FrontOfHost(h: string, port: string, tail: string)
    requires tail == "" || tail[0] in TAIL
    ensures TrimmedFront(WithPort(h, port) + tail) == WithPort(TrimmedFront(h), port) + tail
  {
    if port != "" {
      var more := ":" + port + tail;
      assert WithPort(h, port) + tail == h + more;
      FrontBefore(h, more);
      assert TrimmedFront(h) + more == WithPort(TrimmedFront(h), port) + tail;
    } else if tail != "" {
      FrontBefore(h, tail);
    } else {
      assert h + tail == h && TrimmedFront(h) + tail == TrimmedFront(h);
    }
  }

  // What is left of the host in the trimmed text.
  function HostLeft(f: Fields, tail: string): string {
    var h := HostBack(f.host, f.port, tail);
    if f.scheme == "" && f.user == "" then TrimmedFront(h) else h
  }

  lemma {:induction false} HostLeftShorter(f: Fields, tail: string)
    requires Readable(f) && f.host != ""
    ensures Avoids(HostLeft(f, tail), TAIL + {':'}) && |HostLeft(f, tail)| <= |f.host|
    ensures BlankFirst(f) || (tail == "" && f.port == "" && f.host[|f.host| - 1] in SPACES) ==>
      |HostLeft(f, tail)| < |f.host|
  {
    var h := HostBack(f.host, f.port, tail);
    TrimmedShorter(f.host);
    TrimmedShorter(h);
    TrimmedAvoids(f.host, TAIL + {':'});
    TrimmedAvoids(h, TAIL + {':'});
    var post := BackSplits(f.host);
    assert |h| == |f.host| ==> h == f.host;
  }

  lemma {:induction false} FrontOfRest(u: string, h: string, port: string, tail: string)
    requires (u == "" || u[0] !in SPACES) && (tail == "" || tail[0] in TAIL)
    ensures TrimmedFront(u + (WithPort(h, port) + tail)) ==
      u + (WithPort(if u == "" then TrimmedFront(h) else h, port) + tail)
  {
    var left := WithPort(h, port) + tail;
    if u == "" {
      FrontOfHost(h, port, tail);
      assert u + left == left;
    } else {
      assert (u + left)[0] == u[0];
    }
  }

  lemma {:induction false} HostTrimmed(f: Fields, order: seq<string>)
    requires Readable(f) && f.host != "" && forall k :: k in order ==> k in f.query
    ensures
      var u, tail := UserText(Encoded(f.user), Encoded(f.password)), TailText(f, order);
      RestTrimmed(f.scheme, RestText(f, order)) == u + (WithPort(HostLeft(f, tail), f.port) + TrimmedBack(tail))
  {
    var u, tail := UserText(Encoded(f.user), Encoded(f.password)), TailText(f, order);
    HostText(f);
    TailStarts(f, order);
    EncodedEmptyIff(f.user);
    Associate(u, WithPort(f.host, f.port), tail);
    if f.user != "" { CodedFirst(f.user, f.password); }
    BackOfHost(u, f.host, f.port, tail);
    if tail != "" { BackOfTail("", tail); }
    if f.scheme == "" { FrontOfRest(u, HostBack(f.host, f.port, tail), f.port, TrimmedBack(tail)); }
  }

  // No more of the host is read than is there.
  lemma {:induction false} HostAtMost(g: Fields, f: Fields, h: string, tail: string)
    requires g.host == "" && Avoids(h, TAIL + {':'}) && Digits(f.port) && (tail == "" || tail[0] in TAIL)
    ensures
      var r := RestInto(g, UserText(Encoded(f.user), Encoded(f.password)) + (WithPort(h, f.port) + tail));
      r.ok ==> |r.fields.host| <= |h|
  {
    var u, p := Encoded(f.user), Encoded(f.password);
    var a := UserText(u, p) + WithPort(h, f.port);
    EncodedAvoids(f.user, TAIL + {'@', ':'});
    EncodedAvoids(f.password, TAIL + {'@'});
    UserAvoids(u, p, TAIL);
    PortAvoids(h, f.port, TAIL);
    AvoidsConcat(UserText(u, p), WithPort(h, f.port), TAIL);
    Associate(UserText(u, p), WithPort(h, f.port), tail);
    SplitRest(g, a, tail);
    TailImage(AuthorityInto(g, a).fields, tail);
    if a != "" {
      HostBound(u, p, h, f.port);
      var r := ParseAuthority(a);
      if r.Some? && StoreAuthority(g, r.value).ok { StoredHost(g, r.value); }
    }
  }

  lemma {:induction false} NoMarkFirst(u: string, h: string, port: string, tail: string)
    requires u == "" || u[0] != ':'
    requires Avoids(h, {':'}) && Digits(port) && (tail == "" || tail[0] in TAIL)
    ensures !MarkAt(u + (WithPort(h, port) + tail), 0)
  {
    var s := u + (WithPort(h, port) + tail);
    if u != "" {
      assert s[0] == u[0];
    } else if h != "" {
      assert s[0] == h[0];
    } else if port != "" {
      assert s[1] == port[0] && IsDigit(port[0]);
    } else {
      assert s == tail;
    }
  }

  // What the parser sees once the blanks at both ends are gone.
  lemma {:induction false} HostLeftText(f: Fields, order: seq<string>)
    requires Readable(f) && Enumerates(order, f.query) && f.host != ""
    ensures
      var u, tail := UserText(Encoded(f.user), Encoded(f.password)), TailText(f, order);
      var rest := u + (WithPort(HostLeft(f, tail), f.port) + TrimmedBack(tail));
      && Trimmed(Printed(f, order)) == SchemeText(f) + rest && !MarkAt(rest, 0)
      && (TrimmedBack(tail) == "" || TrimmedBack(tail)[0] in TAIL)
  {
    var u, tail := UserText(Encoded(f.user), Encoded(f.password)), TailText(f, order);
    TailStarts(f, order);
    if tail != "" { BackOfTail("", tail); }
    HostLeftShorter(f, tail);
    if f.user != "" { CodedFirst(f.user, f.password); }
    EncodedEmptyIff(f.user);
    NoMarkFirst(u, HostLeft(f, tail), f.port, TrimmedBack(tail));
    TrimmedParts(f, order);
    HostTrimmed(f, order);
  }

  lemma {:induction false} BlankHostFails(f: Fields, order: seq<string>)
    requires Readable(f) && Enumerates(order, f.query) && f.host != ""
    requires BlankFirst(f) || (BlankLast(f) && f.path == "")
    ensures ParseInto(FRESH, Printed(f, order)) != Outcome(true, f)
  {
    var u, tail := UserText(Encoded(f.user), Encoded(f.password)), TailText(f, order);
    var h, tail' := HostLeft(f, tail), TrimmedBack(tail);
    CodedTailEmpty(f, order);
    HostLeftShorter(f, tail);
    HostLeftText(f, order);
    Peel(f, Printed(f, order), u + (WithPort(h, f.port) + tail'));
    HostAtMost(FRESH.(scheme := f.scheme), f, h, tail');
  }

  // The user in front of an IPv6 address.
  function AfterUser(f: Fields): string {
    (if f.password == "" then "" else ":" + f.password) + ("@" + ("[" + f.ipv6 + "]"))
  }

  lemma {:induction false} UserAndAfter(f: Fields)
    requires f.user != ""
    ensures UserText(f.user, f.password) + ("[" + f.ipv6 + "]") == f.user + AfterUser(f)
  {}

  lemma {:induction false} AfterUserAvoids(f: Fields, u: string)
    requires Readable(f) && Avoids(u, TAIL)
    ensures Avoids(u + AfterUser(f), TAIL)
  {
    var pass, v := if f.password == "" then "" else ":" + f.password, "[" + f.ipv6 + "]";
    AvoidsConcat(":", f.password, TAIL);
    AvoidsConcat("[", f.ipv6, TAIL);
    AvoidsConcat("[" + f.ipv6, "]", TAIL);
    AvoidsConcat("@", v, TAIL);
    AvoidsConcat(pass, "@" + v, TAIL);
    AvoidsConcat(u, AfterUser(f), TAIL);
  }

  lemma {:induction false} AfterUserParts(f: Fields, u: string)
    requires Readable(f) && Avoids(u, {'@', ':'})
    ensures ParseAuthority(u + AfterUser(f)) == Some(Authority(u, f.password, "", f.ipv6, ""))
  {
    var v := "[" + f.ipv6 + "]";
    InfoSplit(u, f.password, f.password != "", v);
    Ipv6Split(f.ipv6, u, f.password);
    if f.password == "" {
      assert AfterUser(f) == "@" + v;
    } else {
      Associate(u, ":", f.password);
      Associate(u, ":" + f.password, "@" + v);
    }
  }

  lemma {:induction false} UserAtMost(f: Fields, u: string, tail: string)
    requires Readable(f) && Avoids(u, TAIL + {'@', ':'}) && (tail == "" || tail[0] in TAIL)
    ensures
      var r := RestInto(FRESH, u + AfterUser(f) + tail);
      r.ok ==> |r.fields.user| <= |u|
  {
    var a := u + AfterUser(f);
    AfterUserAvoids(f, u);
    AfterUserParts(f, u);
    SplitRest(FRESH, a, tail);
    TailImage(AuthorityInto(FRESH, a).fields, tail);
    if AuthorityInto(FRESH, a).ok { DecodedShorter(u); }
  }

  lemma {:induction false} NoMarkAtUser(f: Fields, u: string, tail: string)
    requires Readable(f) && Avoids(u, {':'})
    ensures !MarkAt(u + AfterUser(f) + tail, 0)
  {
    var s := u + AfterUser(f) + tail;
    if u != "" {
      assert s[0] == u[0];
    } else if f.password != "" {
      assert s[1] == f.password[0];
    } else {
      assert s[0] == '@';
    }
  }

  lemma {:induction false} UserTrimmed(f: Fields, order: seq<string>)
    requires Readable(f) && f.scheme == f.host == "" && f.ipv6 != "" && f.user != ""
    requires forall k :: k in order ==> k in f.query
    ensures RestTrimmed(f.scheme, RestText(f, order)) ==
      TrimmedFront(f.user) + AfterUser(f) + TrimmedBack(TailText(f, order))
  {
    var w := AfterUser(f);
    Ipv6Text(f);
    UserAndAfter(f);
    assert w[0] !in SPACES && w[|w| - 1] == ']';
    TrimmedAround(f.user, w, TailText(f, order));
  }

  lemma {:induction false} BlankUserFails(f: Fields, order: seq<string>)
    requires Readable(f) && Enumerates(order, f.query) && f.host == "" && BlankFirst(f)
    ensures ParseInto(FRESH, Printed(f, order)) != Outcome(true, f)
  {
    var u, tail := TrimmedFront(f.user), TailText(f, order);
    TailStarts(f, order);
    if tail != "" { BackOfTail("", tail); }
    TrimmedShorter(f.user);
    TrimmedAvoids(f.user, TAIL + {'@', ':'});
    TrimmedParts(f, order);
    UserTrimmed(f, order);
    NoMarkAtUser(f, u, TrimmedBack(tail));
    Peel(f, Printed(f, order), u + AfterUser(f) + TrimmedBack(tail));
    UserAtMost(f, u, TrimmedBack(tail));
  }

  lemma {:induction false} PathAtMost(g: Fields, a: string, path: string)
    requires g.path == "" && Avoids(a, TAIL) && path != "" && path[0] == '/' && Avoids(path, {'?', '#'})
    ensures var r := RestInto(g, a + path); r.ok ==> |r.fields.path| <= |path|
  {
    SplitRest(g, a, path);
    AuthorityKeeps(g, a);
    PathTail(AuthorityInto(g, a).fields, path, "");
    assert path + "" == path;
    if Decoded(path).Some? { DecodedShorter(path); }
  }

  lemma {:induction false} BlankPathFails(f: Fields, order: seq<string>)
    requires Readable(f) && Enumerates(order, f.query) && !BlankFirst(f) && BlankLast(f) && f.path != ""
    ensures ParseInto(FRESH, Printed(f, order)) != Outcome(true, f)
  {
    var a, path := AuthorityText(f), TrimmedBack(f.path);
    CodedTailEmpty(f, order);
    assert TailText(f, order) == f.path;
    BackOfTail(a, f.path);
    TrimmedShorter(f.path);
    TrimmedAvoids(f.path, {'?', '#'});
    FirstChar(f, order);
    AuthorityAvoids(f);
    TrimmedParts(f, order);
    assert (a + path)[0] == (a + f.path)[0];
    assert RestTrimmed(f.scheme, a + f.path) == a + path;
    Peel(f, Printed(f, order), a + path);
    PathAtMost(FRESH.(scheme := f.scheme), a, path);
  }

  // ---- the round trip ----

  // Any object comes back from its normal form, whatever the order of the dictionary, if and only
  // if it is of the form described by RoundTrips.
  lemma {:induction false} RoundTripIff(f: Fields, order: seq<string>)
    requires Enumerates(order, f.query)
    ensures ParseInto(FRESH, Printed(f, order)) == Outcome(true, f) <==> RoundTrips(f)
  {
    if ParseInto(FRESH, Printed(f, order)) == Outcome(true, f) { ParsedIsReadable(Printed(f, order)); }
    if Readable(f) {
      if BlankFirst(f) {
        if f.host != "" { BlankHostFails(f, order); } else { BlankUserFails(f, order); }
      } else if BlankLast(f) {
        if f.path != "" { BlankPathFails(f, order); } else { BlankHostFails(f, order); }
      } else {
        UntrimmedIff(f, order);
      }
    }
  }

  // The same for the objects themselves.
  method Reparse(u: Url, order: seq<string>) returns (v: Url, ok: bool)
    requires Enumerates(order, u.query)
    ensures fresh(v) && (ok && v.View() == u.View() <==> RoundTrips(u.View()))
  {
    var text := u.Normalize(order);
    v := new Url();
    ok := v.Parse(text);
    RoundTripIff(u.View(), order);
  }

  // ---- what follows for common objects ----

  predicate UnreservedOr(s: string, c: char) { forall i :: 0 <= i < |s| ==> IsUnreserved(s[i]) || s[i] == c }

  // Host, user and path over the unreserved characters of RFC 3986, section 2.3, in the usual form.
  predicate Ordinary(f: Fields) {
    && ValidScheme(f.scheme) && Lower(f.scheme) == f.scheme
    && Unreserved(f.host) && Lower(f.host) == f.host && f.ipv6 == ""
    && Unreserved(f.user) && Unreserved(f.password) && Digits(f.port)
    && UnreservedOr(f.path, '/') && (f.path == "" || f.path[0] == '/')
    && SurvivesAll(f.query) && Survives(f.fragment)
    && (f.host != "" || (f.path != "" && f.user == f.port == "")) && (f.user == "" ==> f.password == "")
  }

  lemma {:induction false} OrdinaryComesBack(f: Fields, order: seq<string>)
    requires Ordinary(f) && Enumerates(order, f.query)
    ensures ParseInto(FRESH, Printed(f, order)) == Outcome(true, f)
  {
    UnreservedAvoids(f.host, TAIL + SPACES + {':', '@', '[', '%', '+'});
    UnreservedAvoids(f.user, TAIL + {'@', ':'});
    UnreservedAvoids(f.password, TAIL + {'@'});
    var cs := SPACES + {'?', '#', '%', '+', ':'};
    forall i | 0 <= i < |f.path| ensures f.path[i] !in cs { assert IsUnreserved(f.path[i]) || f.path[i] == '/'; }
    assert Lower("") == "";
    MarkIff(f.path);
    if f.host != "" { assert f.host[0] !in {'['} + SPACES && f.host[|f.host| - 1] !in SPACES; }
    if f.path != "" { assert f.path[|f.path| - 1] !in SPACES; }
    assert RoundTrips(f);
    RoundTripIff(f, order);
  }

  // ---- an IPv6 address with a port ----

  lemma {:induction false} BracketCut(v: string, port: string)
    requires Avoids(v, {']'})
    ensures
      var s := "[" + v + "]:" + port;
      Find(s, {']'}) == |v| + 1 && s[0] == '[' && s[1..|v| + 1] == v && s[|v| + 2..] == ":" + port
  {
    AvoidsConcat("[", v, {']'});
    Associate("[" + v, "]:", port);
    FindIs("[" + v, "]:" + port, {']'});
  }

  lemma {:induction false} BracketSplit(v: string, port: string, u: string, p: string)
    requires Avoids(v, {']'})
    ensures SplitHost("[" + v + "]:" + port, u, p) == Some(Authority(u, p, "", v, ":" + port))
  {
    BracketCut(v, port);
  }

  lemma {:induction false} ColonIsRefused(g: Fields, p: Authority)
    requires p.port != "" && p.port[0] == ':'
    ensures !StoreAuthority(g, p).ok
  {
    if Decoded(p.port).Some? { ColonIsNoPort(p.port); }
  }

  lemma {:induction false} PortAfterIpv6(g: Fields, u: string, p: string, v: string, port: string)
    requires Avoids(u, {'@', ':'}) && Avoids(p, {'@'}) && Avoids(v, {']'}) && Avoids(port, {'@'})
    requires u != "" || Avoids(v, {'@'})
    ensures !AuthorityInto(g, UserText(u, p) + ("[" + v + "]:" + port)).ok
  {
    var pass := if u == "" then "" else p;
    AvoidsConcat("[", v, {'@'});
    AvoidsConcat("[" + v, "]:", {'@'});
    AvoidsConcat("[" + v + "]:", port, {'@'});
    UserSplit(u, p, "[" + v + "]:" + port);
    BracketSplit(v, port, u, pass);
    ColonIsRefused(g, Authority(u, pass, "", v, ":" + port));
  }

  lemma {:induction false} RefusedRest(f: Fields, text: string, rest: string)
    requires ValidScheme(f.scheme) && Lower(f.scheme) == f.scheme && Trimmed(text) == SchemeText(f) + rest
    requires !RestInto(FRESH.(scheme := f.scheme), rest).ok
    requires f.scheme == "" && FindMark(rest) < |rest| ==> !ValidScheme(rest[..FindMark(rest)])
    ensures !ParseInto(FRESH, text).ok
  {
    if f.scheme != "" {
      SchemeEnds(f);
      AfterScheme(f.scheme, text, rest);
    } else {
      assert SchemeText(f) + rest == rest;
    }
  }

  // What follows the address and its colon, up to the tail, is taken for the port.
  lemma {:induction false} RefusedAfterIpv6(f: Fields, x: string)
    requires f.ipv6 != "" && Readable(f.(port := "")) && (f.user != "" || Avoids(f.ipv6, {'@'}))
    requires Avoids(x[..Find(x, TAIL)], {'@'})
    ensures
      var a := UserText(f.user, f.password) + ("[" + f.ipv6 + "]:");
      Avoids(a, TAIL) && !RestInto(FRESH.(scheme := f.scheme), a + x).ok
  {
    var g, u, v := FRESH.(scheme := f.scheme), UserText(f.user, f.password), "[" + f.ipv6 + "]:";
    var y, z := x[..Find(x, TAIL)], x[Find(x, TAIL)..];
    assert x == y + z;
    Ipv6ColonAvoids(f);
    AvoidsConcat(u + v, y, TAIL);
    SplitRest(g, u + v + y, z);
    Associate(u + v, y, z);
    Associate(u, v, y);
    PortAfterIpv6(g, f.user, f.password, f.ipv6, y);
  }

  lemma {:induction false} Ipv6ColonAvoids(f: Fields)
    requires f.ipv6 != "" && Readable(f.(port := ""))
    ensures Avoids(UserText(f.user, f.password) + ("[" + f.ipv6 + "]:"), TAIL)
  {
    UserAvoids(f.user, f.password, TAIL);
    AvoidsConcat("[", f.ipv6, TAIL);
    AvoidsConcat("[" + f.ipv6, "]:", TAIL);
    AvoidsConcat(UserText(f.user, f.password), "[" + f.ipv6 + "]:", TAIL);
  }

  // The parser refuses the text of every object with an IPv6 address and a port, whatever the port
  // is, as long as it holds no at-sign and the other fields end where they should.
  lemma {:induction false} Ipv6PortIsRefused(f: Fields, order: seq<string>)
    requires f.ipv6 != "" && f.port != "" && Readable(f.(port := "")) && forall k :: k in order ==> k in f.query
    requires Avoids(f.port, {'@'}) && (f.user != "" || Avoids(f.ipv6, {'@'})) && !BlankFirst(f)
    ensures !ParseInto(FRESH, Printed(f, order)).ok
  {
    var u, v, x := UserText(f.user, f.password), "[" + f.ipv6 + "]:", f.port + TailText(f, order);
    var rest := u + v + TrimmedBack(x);
    PortAndTail(f, order);
    RefusedAfterIpv6(f, TrimmedBack(x));
    PrintedParts(f, order);
    Ipv6PortText(f, order);
    Ipv6PortTrimmed(f, u + v, x);
    MarkIff(rest);
    if FindMark(rest) < |rest| { BracketInScheme(u, v, TrimmedBack(x), FindMark(rest)); }
    RefusedRest(f, Printed(f, order), rest);
  }

  lemma {:induction false} PortAndTail(f: Fields, order: seq<string>)
    requires Readable(f.(port := "")) && Avoids(f.port, {'@'}) && forall k :: k in order ==> k in f.query
    ensures var x := TrimmedBack(f.port + TailText(f, order)); Avoids(x[..Find(x, TAIL)], {'@'})
  {
    var post := BackSplits(f.port + TailText(f, order));
    TailStarts(f.(port := ""), order);
    BeforeTail(f.port, TailText(f, order), TrimmedBack(f.port + TailText(f, order)), post);
  }

  lemma {:induction false} BeforeTail(port: string, tail: string, x: string, post: string)
    requires port + tail == x + post && (tail == "" || tail[0] in TAIL) && Avoids(port, {'@'})
    ensures Avoids(x[..Find(x, TAIL)], {'@'})
  {
    var n := Find(x, TAIL);
    assert forall i :: 0 <= i < |x| ==> (port + tail)[i] == x[i];
    assert tail != "" ==> (port + tail)[|port|] == tail[0];
    assert forall i :: 0 <= i < n ==> x[..n][i] == x[i];
    assert n <= |port|;
  }

  lemma {:induction false} Ipv6PortText(f: Fields, order: seq<string>)
    requires f.host == "" && f.ipv6 != "" && f.port != "" && forall k :: k in order ==> k in f.query
    ensures RestText(f, order) ==
      UserText(f.user, f.password) + ("[" + f.ipv6 + "]:") + (f.port + TailText(f, order))
  {
    var u, v := UserText(f.user, f.password), "[" + f.ipv6 + "]:";
    assert AuthorityText(f) == u + v + f.port;
    Associate(u + v, f.port, TailText(f, order));
  }

  lemma {:induction false} Ipv6PortTrimmed(f: Fields, a: string, x: string)
    requires f.host == "" && f.ipv6 != "" && ValidScheme(f.scheme) && !BlankFirst(f)
    requires a == UserText(f.user, f.password) + ("[" + f.ipv6 + "]:")
    ensures Trimmed(SchemeText(f) + (a + x)) == SchemeText(f) + (a + TrimmedBack(x))
  {
    var s := SchemeText(f);
    if f.user != "" { UserFirst(f.user, f.password); }
    if f.scheme != "" { SchemeEnds(f); }
    var m := s + a;
    assert m[0] == if f.scheme != "" then s[0] else if f.user != "" then f.user[0] else '[';
    assert m[|m| - 1] == ':';
    TrimmedAfter(m, x);
    Associate(s, a, x);
    Associate(s, a, TrimmedBack(x));
  }

  // A mark after the bracket makes no valid scheme.
  lemma {:induction false} BracketInScheme(u: string, v: string, tail: string, pos: nat)
    requires Avoids(u + v, TAIL) && |v| > 1 && v[0] == '[' && MarkAt(u + v + tail, pos)
    ensures !ValidScheme((u + v + tail)[..pos])
  {
    var s := u + v + tail;
    assert forall j :: 0 <= j < |u + v| ==> s[j] == (u + v)[j] != '/';
    assert pos + 1 >= |u + v|;
    assert s[..pos][|u|] == '[';
  }
}
