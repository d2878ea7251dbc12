/** Parsing a printed URL, stage by stage: which authorities, paths, queries and fragments come back. */
module UrlStages {
  import opened Basics
  import opened UrlText
  import opened UrlParser
  import opened UrlImage

  // ---- the conditions ----

  predicate SurvivesAll(q: map<string, string>) { forall k :: k in q ==> Survives(k) && Survives(q[k]) }

  // The coded user comes back, and the host is read as one.
  predicate HostOk(f: Fields) {
    && Plain(f.host) && f.host != "" && f.host[0] != '[' && (f.user != "" || Avoids(f.host, {'@'}))
    && Survives(f.user) && Survives(f.password) && (f.user == "" ==> f.password == "")
  }

  // User and password stand uncoded in front of an IPv6 address.
  predicate Ipv6Ok(f: Fields) {
    && Plain(f.ipv6) && (f.user != "" || Avoids(f.ipv6, {'@'}))
    && Plain(f.user) && Plain(f.password) && (f.user == "" ==> f.password == "")
  }

  predicate AuthorityOk(f: Fields) {
    if f.host != "" then HostOk(f)
    else if f.ipv6 != "" then Ipv6Ok(f)
    else f.user == f.password == f.port == ""
  }

  predicate TailOk(f: Fields) { Plain(f.path) && SurvivesAll(f.query) && Survives(f.fragment) }

  // ---- the authority ----

  lemma {:induction false} InfoSplit(u: string, p: string, colon: bool, rest: string)
    requires Avoids(u, {'@', ':'}) && Avoids(p, {'@'})
    ensures
      var info := if colon then u + ":" + p else u;
      ParseAuthority(info + ("@" + rest)) == if rest == "" then None else SplitHost(rest, u, if colon then p else "")
  {
    ColonSplit(u, p, colon);
    InfoParse(if colon then u + ":" + p else u, u, p, colon, rest);
  }

  lemma {:induction false} InfoParse(info: string, u: string, p: string, colon: bool, rest: string)
    requires Avoids(info, {'@'}) && Find(info, {':'}) == |u| && info[..|u|] == u
    requires if colon then |u| < |info| && info[|u| + 1..] == p else |u| == |info|
    ensures ParseAuthority(info + ("@" + rest)) ==
      if rest == "" then None else SplitHost(rest, u, if colon then p else "")
  {
    AtSplit(info, rest);
  }

  lemma {:induction false} ColonSplit(u: string, p: string, colon: bool)
    requires Avoids(u, {'@', ':'}) && Avoids(p, {'@'})
    ensures
      var info := if colon then u + ":" + p else u;
      && Avoids(info, {'@'}) && Find(info, {':'}) == |u| && info[..|u|] == u
      && (if colon then |u| < |info| && info[|u| + 1..] == p else |u| == |info|)
  {
    var more := if colon then ":" + p else "";
    var info := if colon then u + ":" + p else u;
    Associate(u, ":", p);
    assert info == u + more;
    AvoidsConcat(":", p, {'@'});
    AvoidsConcat(u, more, {'@'});
    FindIs(u, more, {':'});
  }

  lemma {:induction false} AtSplit(info: string, rest: string)
    requires Avoids(info, {'@'})
    ensures
      var text := info + ("@" + rest);
      Find(text, {'@'}) == |info| && text[..|info|] == info && text[|info| + 1..] == rest
  {
    FindIs(info, "@" + rest, {'@'});
  }

  lemma {:induction false} UserSplit(u: string, p: string, rest: string)
    requires Avoids(u, {'@', ':'}) && Avoids(p, {'@'}) && (u != "" || (rest != "" && Avoids(rest, {'@'})))
    ensures UserText(u, p) + rest != ""
    ensures ParseAuthority(UserText(u, p) + rest) ==
      if rest == "" then None else SplitHost(rest, u, if u == "" then "" else p)
  {
    if u == "" {
      assert UserText(u, p) + rest == rest && rest + "" == rest;
      FindIs(rest, "", {'@'});
    } else {
      InfoSplit(u, p, p != "", rest);
      Associate(if p != "" then u + ":" + p else u, "@", rest);
    }
  }

  lemma {:induction false} HostSplit(h: string, port: string, u: string, p: string)
    requires Avoids(h, {':'}) && WithPort(h, port) != ""
    ensures
      var r := SplitHost(WithPort(h, port), u, p);
      && (h == "" || h[0] != '[' ==> r == Some(Authority(u, p, h, "", port)))
      && (h != "" && h[0] == '[' && r.Some? ==> r.value.host == "")
  {
    PortSplit(h, port);
  }

  lemma {:induction false} PortSplit(h: string, port: string)
    requires Avoids(h, {':'})
    ensures
      var s := WithPort(h, port);
      && Find(s, {':'}) == |h| && s[..|h|] == h && (s != "" ==> s[0] == if h == "" then ':' else h[0])
      && (if port == "" then |s| == |h| else |h| < |s| && s[|h| + 1..] == port)
  {
    var more := if port == "" then "" else ":" + port;
    assert WithPort(h, port) == h + more;
    FindIs(h, more, {':'});
  }

  // The host is read differently than it was printed.
  predicate Misread(u: string, h: string) { h != "" && (h[0] == '[' || (u == "" && !Avoids(h, {'@'}))) }

  // Whatever the host is, no more than it is read, and less if it is misread.
  lemma {:induction false} HostBound(u: string, p: string, h: string, port: string)
    requires Avoids(u, {'@', ':'}) && Avoids(p, {'@'}) && Avoids(h, {':'}) && Digits(port)
    requires UserText(u, p) + WithPort(h, port) != ""
    ensures
      var r := ParseAuthority(UserText(u, p) + WithPort(h, port));
      && (r.Some? ==> |r.value.host| <= |h| && (Misread(u, h) ==> |r.value.host| < |h|))
      && (h != "" && !Misread(u, h) ==> r == Some(Authority(u, if u == "" then "" else p, h, "", port)))
  {
    if u != "" || Avoids(h, {'@'}) {
      AvoidsConcat(h, ":", {'@'});
      AvoidsConcat(h + ":", port, {'@'});
      assert UserText("", p) + WithPort(h, port) == WithPort(h, port);
      UserSplit(u, p, WithPort(h, port));
      if WithPort(h, port) != "" { HostSplit(h, port, u, if u == "" then "" else p); }
    } else {
      SecondAt(p, h, port);
    }
  }

  // Without a user, an at-sign in the host ends a user.
  lemma {:induction false} CutAtSign(h: string, k: nat, port: string)
    requires k < |h| && h[k] == '@'
    ensures WithPort(h, port) == h[..k] + ("@" + WithPort(h[k + 1..], port))
  {}

  lemma {:induction false} SecondAt(p: string, h: string, port: string)
    requires Avoids(h, {':'}) && Digits(port) && !Avoids(h, {'@'})
    ensures
      var r := ParseAuthority(UserText("", p) + WithPort(h, port));
      r.Some? ==> |r.value.host| < |h|
  {
    var k := Find(h, {'@'});
    assert h[..|h|] == h;
    var rest := WithPort(h[k + 1..], port);
    AvoidsPart(h, 0, k, {':'});
    AvoidsPart(h, k + 1, |h|, {':'});
    assert Avoids(h[..k], {'@', ':'});
    CutAtSign(h, k, port);
    assert UserText("", p) + WithPort(h, port) == WithPort(h, port);
    InfoSplit(h[..k], "", false, rest);
    if rest != "" { HostSplit(h[k + 1..], port, h[..k], ""); }
  }

  lemma {:induction false} Ipv6Split(v: string, u: string, p: string)
    requires Avoids(v, {']'})
    ensures SplitHost("[" + v + "]", u, p) == Some(Authority(u, p, "", v, ""))
  {
    var s := "[" + v + "]";
    AvoidsConcat("[", v, {']'});
    FindIs("[" + v, "]", {']'});
    assert s[1..|v| + 1] == v && s[|v| + 2..] == "";
  }

  lemma {:induction false} Ipv6Parts(u: string, p: string, v: string)
    requires Avoids(u, {'@', ':'}) && Avoids(p, {'@'}) && Avoids(v, {']'}) && (u != "" || Avoids(v, {'@'}))
    ensures ParseAuthority(UserText(u, p) + ("[" + v + "]")) == Some(Authority(u, if u == "" then "" else p, "", v, ""))
  {
    AvoidsConcat("[", v, {'@'});
    AvoidsConcat("[" + v, "]", {'@'});
    UserSplit(u, p, "[" + v + "]");
    Ipv6Split(v, u, if u == "" then "" else p);
  }

  // Without a user, an at-sign in the address makes one.
  lemma {:induction false} Ipv6Misread(v: string)
    requires !Avoids(v, {'@'})
    ensures
      var r := ParseAuthority("[" + v + "]");
      r.Some? ==> r.value.user != "" && r.value.user[0] == '['
  {
    var a := "[" + v + "]";
    var at := Find(a, {'@'});
    AvoidsConcat("[" + v, "]", {'@'});
    AvoidsConcat("[", v, {'@'});
    assert a[..|a|] == a;
    assert a[0] == '[' && a[..at][0] == '[';
  }

  // The object's own authority, in g.
  function OwnAuthority(g: Fields, f: Fields): Fields {
    g.(user := f.user, password := f.password, host := f.host, ipv6 := f.ipv6, port := f.port)
  }

  lemma {:induction false} StoredHost(g: Fields, p: Authority)
    requires StoreAuthority(g, p).ok
    ensures |StoreAuthority(g, p).fields.host| <= |p.host|
  {
    DecodedShorter(p.host);
  }

  lemma {:induction false} LowerFixed(s: string)
    requires Lower(s) == s
    ensures (Decoded(s).Some? && Lower(Decoded(s).value) == s) <==> Plain(s)
  {
    if Plain(s) { DecodedPlain(s); }
    if Decoded(s).Some? && Lower(Decoded(s).value) == s { DecodedFixed(s); }
  }

  lemma {:induction false} DigitsPlain(s: string)
    requires Digits(s)
    ensures Decoded(s) == Some(s)
  {
    forall i | 0 <= i < |s| ensures s[i] !in {'%', '+'} { assert IsDigit(s[i]); }
    DecodedPlain(s);
  }

  lemma {:induction false} HostText(f: Fields)
    requires f.host != ""
    ensures AuthorityText(f) == UserText(Encoded(f.user), Encoded(f.password)) + WithPort(f.host, f.port)
  {
    var u := UserText(Encoded(f.user), Encoded(f.password));
    Associate(u, f.host, ":");
    Associate(u, f.host + ":", f.port);
  }

  lemma {:induction false} HostStored(g: Fields, f: Fields)
    requires Readable(f) && f.host != ""
    ensures
      var p := Authority(Encoded(f.user), if f.user == "" then "" else Encoded(f.password), f.host, "", f.port);
      StoreAuthority(g, p) == Outcome(true, OwnAuthority(g, f)) <==>
        && Plain(f.host) && Survives(f.user) && Survives(f.password) && (f.user == "" ==> f.password == "")
  {
    LowerFixed(f.host);
    DigitsPlain(f.port);
    DecodedEncoded(f.user);
    DecodedEncoded(f.password);
    CleanIff(f.user);
    CleanIff(f.password);
    assert Lower("") == "";
  }

  lemma {:induction false} HostStage(g: Fields, f: Fields)
    requires Readable(f) && f.host != "" && g.host == ""
    ensures AuthorityInto(g, AuthorityText(f)) == Outcome(true, OwnAuthority(g, f)) <==> HostOk(f)
  {
    var u, p := Encoded(f.user), Encoded(f.password);
    HostText(f);
    EncodedAvoids(f.user, {'@', ':'});
    EncodedAvoids(f.password, {'@'});
    EncodedEmptyIff(f.user);
    HostBound(u, p, f.host, f.port);
    HostStored(g, f);
    var r := ParseAuthority(AuthorityText(f));
    if r.Some? && StoreAuthority(g, r.value).ok { StoredHost(g, r.value); }
  }

  lemma {:induction false} Ipv6Text(f: Fields)
    requires f.host == "" && f.ipv6 != "" && f.port == ""
    ensures AuthorityText(f) == UserText(f.user, f.password) + ("[" + f.ipv6 + "]")
  {
    Associate(UserText(f.user, f.password), "[", f.ipv6);
    Associate(UserText(f.user, f.password), "[" + f.ipv6, "]");
  }

  lemma {:induction false} PlainIff(s: string)
    ensures Decoded(s) == Some(s) <==> Plain(s)
  {
    if Plain(s) { DecodedPlain(s); }
    if Decoded(s) == Some(s) { DecodedFixed(s); }
  }

  lemma {:induction false} Ipv6Stored(g: Fields, f: Fields)
    requires Readable(f) && f.ipv6 != ""
    ensures
      var p := Authority(f.user, if f.user == "" then "" else f.password, "", f.ipv6, "");
      StoreAuthority(g, p) == Outcome(true, OwnAuthority(g, f)) <==>
        && Plain(f.ipv6) && Plain(f.user) && Plain(f.password) && (f.user == "" ==> f.password == "")
  {
    LowerFixed(f.ipv6);
    PlainIff(f.user);
    PlainIff(f.password);
    assert Lower("") == "";
  }

  lemma {:induction false} Ipv6Stage(g: Fields, f: Fields)
    requires Readable(f) && f.ipv6 != ""
    ensures AuthorityInto(g, AuthorityText(f)) == Outcome(true, OwnAuthority(g, f)) <==> Ipv6Ok(f)
  {
    Ipv6Text(f);
    Ipv6Stored(g, f);
    if f.user != "" || Avoids(f.ipv6, {'@'}) {
      Ipv6Parts(f.user, f.password, f.ipv6);
    } else {
      assert UserText(f.user, f.password) + ("[" + f.ipv6 + "]") == "[" + f.ipv6 + "]";
      Ipv6MakesUser(g, f.ipv6);
    }
  }

  lemma {:induction false} Ipv6MakesUser(g: Fields, v: string)
    requires !Avoids(v, {'@'})
    ensures AuthorityInto(g, "[" + v + "]").ok ==> AuthorityInto(g, "[" + v + "]").fields.user != ""
  {
    Ipv6Misread(v);
    var r := ParseAuthority("[" + v + "]");
    if r.Some? && StoreAuthority(g, r.value).ok { DecodedFirst(r.value.user); }
  }

  lemma {:induction false} AuthorityStage(g: Fields, f: Fields)
    requires Readable(f) && g == FRESH.(scheme := g.scheme)
    ensures AuthorityInto(g, AuthorityText(f)) == Outcome(true, OwnAuthority(g, f)) <==> AuthorityOk(f)
  {
    if f.host != "" { HostStage(g, f); } else if f.ipv6 != "" { Ipv6Stage(g, f); }
  }

  // ---- the query ----

  function RereadQuery(m: map<string, string>, order: seq<string>, q: map<string, string>): map<string, string>
    requires forall k :: k in order ==> k in q
    decreases |order|
  {
    if order == [] then m
    else RereadQuery(m[Clean(order[0]) := Clean(q[order[0]])], order[1..], q)
  }

  // The text after the question mark, for at least one pair.
  function QueryText(order: seq<string>, q: map<string, string>): string
    requires order != [] && forall k :: k in order ==> k in q
  {
    Pair(order[0], q[order[0]]) + Pairs('&', order[1..], q)
  }

  lemma {:induction false} PairAvoids(k: string, v: string, cs: set<char>)
    requires '=' !in cs && forall c :: c in cs ==> !IsUnreserved(c) && c != '%'
    ensures Avoids(Pair(k, v), cs)
  {
    EncodedAvoids(k, cs);
    EncodedAvoids(v, cs);
    AvoidsConcat(Encoded(k), "=", cs);
    AvoidsConcat(Encoded(k) + "=", Encoded(v), cs);
  }

  lemma {:induction false} PairSplits(k: string, v: string)
    ensures
      var pair := Pair(k, v);
      var eq := Find(pair, {'='});
      eq < |pair| && Decoded(pair[..eq]) == Some(Clean(k)) && Decoded(pair[eq + 1..]) == Some(Clean(v))
  {
    var pair := Pair(k, v);
    EncodedAvoids(k, {'='});
    Associate(Encoded(k), "=", Encoded(v));
    FindIs(Encoded(k), "=" + Encoded(v), {'='});
    assert pair[..|Encoded(k)|] == Encoded(k) && pair[|Encoded(k)| + 1..] == Encoded(v);
    DecodedEncoded(k);
    DecodedEncoded(v);
  }

  // One turn of the loop over the pairs.
  lemma {:induction false} QueryTurn(m: map<string, string>, pair: string, more: string, k: string, v: string)
    requires Avoids(pair, {'&'}) && (more == "" || more[0] == '&')
    requires
      var eq := Find(pair, {'='});
      eq < |pair| && Decoded(pair[..eq]) == Some(k) && Decoded(pair[eq + 1..]) == Some(v)
    ensures QueryFrom(m, pair + more) == QueryFrom(m[k := v], if more == "" then "" else more[1..])
  {
    PairCut(pair, more);
  }

  lemma {:induction false} PairCut(pair: string, more: string)
    requires Avoids(pair, {'&'}) && (more == "" || more[0] == '&')
    ensures
      var s := pair + more;
      && Find(s, {'&'}) == |pair| && s[..|pair|] == pair
      && (if more == "" then |s| == |pair| && s[|pair|..] == "" else |pair| < |s| && s[|pair| + 1..] == more[1..])
  {
    FindIs(pair, more, {'&'});
  }

  lemma {:induction false} QueryStep(m: map<string, string>, k: string, v: string, more: string)
    requires more == "" || more[0] == '&'
    ensures QueryFrom(m, Pair(k, v) + more) == QueryFrom(m[Clean(k) := Clean(v)], if more == "" then "" else more[1..])
  {
    PairAvoids(k, v, {'&'});
    PairSplits(k, v);
    QueryTurn(m, Pair(k, v), more, Clean(k), Clean(v));
  }

  lemma {:induction false} QueryRereads(m: map<string, string>, order: seq<string>, q: map<string, string>)
    requires order != [] && forall k :: k in order ==> k in q
    ensures QueryFrom(m, QueryText(order, q)) == Some(RereadQuery(m, order, q))
    decreases |order|
  {
    var k, rest := order[0], order[1..];
    var m' := m[Clean(k) := Clean(q[k])];
    QueryStep(m, k, q[k], Pairs('&', rest, q));
    if rest != [] {
      assert Pairs('&', rest, q)[1..] == QueryText(rest, q);
      QueryRereads(m', rest, q);
    }
  }

  // Only strings that survive come out of a query, and a query of such strings is unchanged.
  lemma {:induction false} RereadSurvives(m: map<string, string>, order: seq<string>, q: map<string, string>)
    requires SurvivesAll(m) && forall k :: k in order ==> k in q
    ensures SurvivesAll(RereadQuery(m, order, q))
    decreases |order|
  {
    if order != [] {
      CleanIff(order[0]);
      CleanIff(q[order[0]]);
      RereadSurvives(m[Clean(order[0]) := Clean(q[order[0]])], order[1..], q);
    }
  }

  lemma {:induction false} RereadKeeps(m: map<string, string>, order: seq<string>, q: map<string, string>)
    requires SurvivesAll(q) && forall k :: k in order ==> k in q
    ensures forall k :: k in RereadQuery(m, order, q) <==> k in m || k in order
    ensures forall k :: k in RereadQuery(m, order, q) ==>
      RereadQuery(m, order, q)[k] == if k in order then q[k] else m[k]
    decreases |order|
  {
    if order != [] {
      CleanIff(order[0]);
      CleanIff(q[order[0]]);
      RereadKeeps(m[Clean(order[0]) := Clean(q[order[0]])], order[1..], q);
      assert order == [order[0]] + order[1..];
    }
  }

  lemma {:induction false} RereadQueryIff(order: seq<string>, q: map<string, string>)
    requires Enumerates(order, q)
    ensures RereadQuery(map[], order, q) == q <==> SurvivesAll(q)
  {
    RereadSurvives(map[], order, q);
    if SurvivesAll(q) { RereadKeeps(map[], order, q); }
  }

  // ---- path, query and fragment ----

  function TailText(f: Fields, order: seq<string>): string
    requires forall k :: k in order ==> k in f.query
  {
    f.path + (Pairs('?', order, f.query) + FragmentText(f))
  }

  lemma {:induction false} PathTail(g: Fields, path: string, rest: string)
    requires g.path == "" && (path == "" || path[0] == '/') && Avoids(path, {'?', '#'})
    requires rest == "" || rest[0] in {'?', '#'}
    ensures TailInto(g, path + rest) ==
      if Decoded(path).None? then Outcome(false, g) else TailInto(g.(path := Decoded(path).value), rest)
  {
    if path == "" {
      assert path + rest == rest && g == g.(path := "");
    } else {
      FindIs(path, rest, {'?', '#'});
      assert (path + rest)[..|path|] == path && (path + rest)[|path|..] == rest;
    }
  }

  lemma {:induction false} QueryTailStep(g: Fields, body: string, rest: string, query: map<string, string>)
    requires body != "" && Avoids(body, {'#'}) && (rest == "" || rest[0] == '#')
    requires QueryFrom(map[], body) == Some(query)
    ensures TailInto(g, "?" + (body + rest)) == TailInto(g.(query := query), rest)
  {
    var s := "?" + (body + rest);
    FindIs(body, rest, {'#'});
    assert s[1..] == body + rest;
    assert (body + rest)[..|body|] == body && (body + rest)[|body|..] == rest;
  }

  lemma {:induction false} QueryTextAvoids(order: seq<string>, q: map<string, string>)
    requires order != [] && forall k :: k in order ==> k in q
    ensures QueryText(order, q) != "" && Avoids(QueryText(order, q), {'#'})
  {
    var pair := Pair(order[0], q[order[0]]);
    PairsAvoid('&', order[1..], q, {'#'});
    PairAvoids(order[0], q[order[0]], {'#'});
    AvoidsConcat(pair, Pairs('&', order[1..], q), {'#'});
    assert |pair| > 0;
  }

  lemma {:induction false} QueryTail(g: Fields, order: seq<string>, q: map<string, string>, rest: string)
    requires g.query == map[] && (rest == "" || rest[0] == '#') && forall k :: k in order ==> k in q
    ensures Pairs('?', order, q) + rest == "" || (Pairs('?', order, q) + rest)[0] in {'?', '#'}
    ensures TailInto(g, Pairs('?', order, q) + rest) == TailInto(g.(query := RereadQuery(map[], order, q)), rest)
  {
    if order == [] {
      assert Pairs('?', order, q) + rest == rest && g == g.(query := map[]);
    } else {
      QueryTextAvoids(order, q);
      QueryRereads(map[], order, q);
      QueryTailStep(g, QueryText(order, q), rest, RereadQuery(map[], order, q));
      Associate("?", QueryText(order, q), rest);
    }
  }

  lemma {:induction false} PairsAvoid(lead: char, order: seq<string>, q: map<string, string>, cs: set<char>)
    requires forall k :: k in order ==> k in q
    requires cs !! {lead, '=', '&'} && forall c :: c in cs ==> !IsUnreserved(c) && c != '%'
    ensures Avoids(Pairs(lead, order, q), cs)
    decreases |order|
  {
    if order != [] {
      var pair, more := Pair(order[0], q[order[0]]), Pairs('&', order[1..], q);
      PairAvoids(order[0], q[order[0]], cs);
      PairsAvoid('&', order[1..], q, cs);
      AvoidsConcat(pair, more, cs);
      AvoidsConcat([lead], pair + more, cs);
    }
  }

  lemma {:induction false} FragmentTail(g: Fields, f: Fields)
    requires g.fragment == ""
    ensures TailInto(g, FragmentText(f)) == Outcome(true, g.(fragment := Clean(f.fragment)))
  {
    if f.fragment == "" {
      assert Clean("") == "" && g == g.(fragment := "");
    } else {
      assert FragmentText(f)[1..] == Encoded(f.fragment);
      DecodedEncoded(f.fragment);
    }
  }

  lemma {:induction false} TailStage(g: Fields, f: Fields, order: seq<string>)
    requires Readable(f) && Enumerates(order, f.query) && g.path == g.fragment == "" && g.query == map[]
    ensures
      var own := g.(path := f.path, query := f.query, fragment := f.fragment);
      TailInto(g, TailText(f, order)) == Outcome(true, own) <==> TailOk(f)
  {
    QueryTail(g, order, f.query, FragmentText(f));
    PathTail(g, f.path, Pairs('?', order, f.query) + FragmentText(f));
    PlainIff(f.path);
    if Decoded(f.path).Some? {
      var g1 := g.(path := Decoded(f.path).value);
      QueryTail(g1, order, f.query, FragmentText(f));
      FragmentTail(g1.(query := RereadQuery(map[], order, f.query)), f);
      RereadQueryIff(order, f.query);
      CleanIff(f.fragment);
    }
  }

  // ---- authority and tail together ----

  lemma {:induction false} UserAvoids(u: string, p: string, cs: set<char>)
    requires Avoids(u, cs) && Avoids(p, cs) && cs !! {':', '@'}
    ensures Avoids(UserText(u, p), cs)
  {
    AvoidsConcat(u, ":", cs);
    AvoidsConcat(u + ":", p, cs);
    AvoidsConcat(if p == "" then u else u + ":" + p, "@", cs);
  }

  lemma {:induction false} PortAvoids(s: string, port: string, cs: set<char>)
    requires Avoids(s, cs) && Digits(port) && forall c :: c in cs ==> c != ':' && !IsDigit(c)
    ensures Avoids(WithPort(s, port), cs)
  {
    forall i | 0 <= i < |port| ensures port[i] !in cs { assert IsDigit(port[i]); }
    AvoidsConcat(s, ":", cs);
    AvoidsConcat(s + ":", port, cs);
  }

  // The authority holds no start of a tail.
  lemma {:induction false} AuthorityAvoids(f: Fields)
    requires Readable(f)
    ensures Avoids(AuthorityText(f), TAIL)
  {
    if f.host != "" {
      var u := UserText(Encoded(f.user), Encoded(f.password));
      HostText(f);
      EncodedAvoids(f.user, TAIL);
      EncodedAvoids(f.password, TAIL);
      UserAvoids(Encoded(f.user), Encoded(f.password), TAIL);
      PortAvoids(f.host, f.port, TAIL);
      AvoidsConcat(u, WithPort(f.host, f.port), TAIL);
    } else if f.ipv6 != "" {
      Ipv6Text(f);
      UserAvoids(f.user, f.password, TAIL);
      AvoidsConcat("[", f.ipv6, TAIL);
      AvoidsConcat("[" + f.ipv6, "]", TAIL);
      AvoidsConcat(UserText(f.user, f.password), "[" + f.ipv6 + "]", TAIL);
    }
  }

  lemma {:induction false} TailStarts(f: Fields, order: seq<string>)
    requires Readable(f) && forall k :: k in order ==> k in f.query
    ensures TailText(f, order) == "" || TailText(f, order)[0] in TAIL
  {}

  lemma {:induction false} AuthorityKeeps(g: Fields, a: string)
    ensures
      var r := AuthorityInto(g, a).fields;
      r == g.(user := r.user, password := r.password, host := r.host, ipv6 := r.ipv6, port := r.port)
  {
    if a != "" && ParseAuthority(a).Some? { StoreKeeps(g, ParseAuthority(a).value); }
  }

  lemma {:induction false} StoreKeeps(g: Fields, p: Authority)
    ensures
      var r := StoreAuthority(g, p).fields;
      r == g.(user := r.user, password := r.password, host := r.host, ipv6 := r.ipv6, port := r.port)
  {}

  lemma {:induction false} SplitRest(g: Fields, a: string, tail: string)
    requires Avoids(a, TAIL) && (tail == "" || tail[0] in TAIL)
    ensures RestInto(g, a + tail) ==
      var r := AuthorityInto(g, a);
      if !r.ok then r
      else
        var r := TailInto(r.fields, tail);
        if !r.ok then r else Outcome(Locates(r.fields), r.fields)
  {
    FindIs(a, tail, TAIL);
    assert (a + tail)[..|a|] == a && (a + tail)[|a|..] == tail;
  }

  lemma {:induction false} RestStage(f: Fields, order: seq<string>)
    requires Readable(f) && Enumerates(order, f.query)
    ensures
      RestInto(FRESH.(scheme := f.scheme), AuthorityText(f) + TailText(f, order)) == Outcome(true, f) <==>
        AuthorityOk(f) && TailOk(f)
  {
    var g, a, tail := FRESH.(scheme := f.scheme), AuthorityText(f), TailText(f, order);
    AuthorityAvoids(f);
    TailStarts(f, order);
    SplitRest(g, a, tail);
    AuthorityStage(g, f);
    AuthorityKeeps(g, a);
    TailImage(AuthorityInto(g, a).fields, tail);
    TailStage(OwnAuthority(g, f), f, order);
  }

}
