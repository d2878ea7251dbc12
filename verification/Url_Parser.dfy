/** The URL object: parsing a text into it, and printing it. */
module UrlParser {
  import opened Basics
  import opened UrlText

  datatype Fields = Fields(
    scheme: string,
    user: string,
    password: string,
    host: string,
    ipv6: string,
    port: string,
    path: string,
    query: map<string, string>,
    fragment: string)

  const FRESH := Fields("", "", "", "", "", "", "", map[], "")

  // A call's answer and the fields it leaves, also when it gives up half way.
  datatype Outcome = Outcome(ok: bool, fields: Fields)

  // ---- parsing ----

  predicate ValidScheme(s: string) {
    forall i :: 0 <= i < |s| ==> IsAlpha(s[i]) || IsDigit(s[i]) || s[i] in {'+', '-', '.'}
  }

  // The parts of an authority, still coded.
  datatype Authority = Authority(user: string, password: string, host: string, ipv6: string, port: string)

  function SplitHost(a: string, user: string, password: string): Option<Authority>
    requires a != ""
  {
    if a[0] == '[' then
      var pos := Find(a, {']'});
      if pos == |a| then None
      else
        var rest := a[pos + 1..];
        if rest != "" && rest[0] != ':' then None
        else Some(Authority(user, password, "", a[1..pos], rest))
    else
      var pos := Find(a, {':'});
      Some(Authority(user, password, a[..pos], "", if pos < |a| then a[pos + 1..] else ""))
  }

  function ParseAuthority(a: string): Option<Authority>
    requires a != ""
  {
    var at := Find(a, {'@'});
    if at == |a| then SplitHost(a, "", "")
    else
      var info, rest := a[..at], a[at + 1..];
      if rest == "" then None
      else
        var colon := Find(info, {':'});
        SplitHost(rest, info[..colon], if colon < |info| then info[colon + 1..] else "")
  }

  // Pairs joined by '&', added to m; a later key replaces an earlier one.
  function QueryFrom(m: map<string, string>, s: string): Option<map<string, string>>
    decreases |s|
  {
    if s == "" then Some(m)
    else
      var amp := Find(s, {'&'});
      var pair, rest := s[..amp], s[if amp < |s| then amp + 1 else amp..];
      var eq := Find(pair, {'='});
      if eq == |pair| then None
      else match (Decoded(pair[..eq]), Decoded(pair[eq + 1..]))
        case (Some(k), Some(v)) => QueryFrom(m[k := v], rest)
        case _ => None
  }

  // The decoded parts of an authority go into the fields one after the other.
  function StoreAuthority(f: Fields, a: Authority): Outcome {
    match Decoded(a.host) case None => Outcome(false, f) case Some(host) =>
    var f := f.(host := host);
    match Decoded(a.ipv6) case None => Outcome(false, f) case Some(ipv6) =>
    var f := f.(ipv6 := ipv6);
    match Decoded(a.port) case None => Outcome(false, f) case Some(port) =>
    var f := f.(port := port);
    if !Digits(port) then Outcome(false, f)
    else match Decoded(a.user) case None => Outcome(false, f) case Some(user) =>
    var f := f.(user := user);
    match Decoded(a.password) case None => Outcome(false, f) case Some(password) =>
    Outcome(true, f.(password := password, host := Lower(host), ipv6 := Lower(ipv6)))
  }

  function AuthorityInto(f: Fields, a: string): Outcome {
    if a == "" then Outcome(true, f)
    else match ParseAuthority(a) case None => Outcome(false, f) case Some(parts) => StoreAuthority(f, parts)
  }

  const TAIL := {'/', '?', '#'}

  // Path, query and fragment.
  function TailInto(f: Fields, s: string): Outcome
    requires s == "" || s[0] in TAIL
    decreases |s|
  {
    if s == "" then Outcome(true, f)
    else if s[0] == '/' then
      var pos := Find(s, {'?', '#'});
      match Decoded(s[..pos])
      case None => Outcome(false, f)
      case Some(path) => TailInto(f.(path := path), s[pos..])
    else if s[0] == '?' then
      var u := s[1..];
      var pos := Find(u, {'#'});
      if pos == 0 then TailInto(f, u[pos..])
      else match QueryFrom(map[], u[..pos])
        case None => Outcome(false, f)
        case Some(query) => TailInto(f.(query := query), u[pos..])
    else match Decoded(s[1..])
      case None => Outcome(false, f)
      case Some(fragment) => Outcome(true, f.(fragment := fragment))
  }

  predicate Locates(f: Fields) { f.host != "" || f.ipv6 != "" || f.path != "" }

  function RestInto(f: Fields, s: string): Outcome {
    var pos := Find(s, TAIL);
    var r := AuthorityInto(f, s[..pos]);
    if !r.ok then r
    else
      var r := TailInto(r.fields, s[pos..]);
      if !r.ok then r else Outcome(Locates(r.fields), r.fields)
  }

  function ParseInto(f: Fields, text: string): Outcome {
    var s := Trimmed(text);
    if s == "" then Outcome(false, f)
    else
      var pos := FindMark(s);
      if pos == |s| then RestInto(f, s)
      else if !ValidScheme(s[..pos]) then Outcome(false, f)
      else
        var f := f.(scheme := Lower(s[..pos]));
        if s[pos + 3..] == "" then Outcome(false, f) else RestInto(f, s[pos + 3..])
  }

  // ---- printing ----

  // The dictionary's keys, each once, in any order.
  ghost predicate Enumerates(order: seq<string>, q: map<string, string>) {
    && (forall i, j :: 0 <= i < j < |order| ==> order[i] != order[j])
    && (forall k :: k in q <==> k in order)
  }

  function Pair(k: string, v: string): string { Encoded(k) + "=" + Encoded(v) }

  function Pairs(lead: char, order: seq<string>, q: map<string, string>): string
    requires forall k :: k in order ==> k in q
    decreases |order|
  {
    if order == [] then ""
    else [lead] + (Pair(order[0], q[order[0]]) + Pairs('&', order[1..], q))
  }

  function UserText(user: string, password: string): string {
    if user == "" then "" else (if password == "" then user else user + ":" + password) + "@"
  }

  function WithPort(s: string, port: string): string { if port == "" then s else s + ":" + port }

  // The user is coded in front of a host, and written as it is in front of an IPv6 address.
  function AuthorityText(f: Fields): string {
    if f.host != "" then WithPort(UserText(Encoded(f.user), Encoded(f.password)) + f.host, f.port)
    else if f.ipv6 != "" then WithPort(UserText(f.user, f.password) + "[" + f.ipv6 + "]", f.port)
    else ""
  }

  function SchemeText(f: Fields): string { if f.scheme == "" then "" else f.scheme + "://" }

  function FragmentText(f: Fields): string { if f.fragment == "" then "" else "#" + Encoded(f.fragment) }

  function Printed(f: Fields, order: seq<string>): string
    requires forall k :: k in order ==> k in f.query
  {
    SchemeText(f) + AuthorityText(f) + f.path + Pairs('?', order, f.query) + FragmentText(f)
  }

  // ---- the object ----

  class Url {
    var scheme: string
    var user: string
    var password: string
    var host: string
    var ipv6: string
    var port: string
    var path: string
    var query: map<string, string>
    var fragment: string

    ghost function View(): Fields
      reads this
    {
      Fields(scheme, user, password, host, ipv6, port, path, query, fragment)
    }

    constructor ()
      ensures View() == FRESH
    {
      scheme, user, password, host, ipv6, port, path, query, fragment := "", "", "", "", "", "", "", map[], "";
    }

    method Parse(text: string) returns (ok: bool)
      modifies this
      ensures Outcome(ok, View()) == ParseInto(old(View()), text)
    {
      var url := Trim(text);
      if url == "" { return false; }
      var pos := FindMark(url);
      if pos < |url| {
        if !ValidScheme(url[..pos]) { return false; }
        scheme := Lower(url[..pos]);
        url := url[pos + 3..];
        if url == "" { return false; }
      }
      pos := Find(url, TAIL);
      if pos > 0 {
        ok := ParseAuthorityPart(url[..pos]);
        if !ok { return false; }
      }
      ok := ParseTail(url[pos..]);
      if !ok { return false; }
      return host != "" || ipv6 != "" || path != "";
    }

    method ParseAuthorityPart(a: string) returns (ok: bool)
      requires a != ""
      modifies this
      ensures Outcome(ok, View()) == AuthorityInto(old(View()), a)
    {
      var parts := ParseAuthority(a);
      if parts.None? { return false; }
      ok := Store(parts.value);
    }

    method Store(a: Authority) returns (ok: bool)
      modifies this
      ensures Outcome(ok, View()) == StoreAuthority(old(View()), a)
    {
      var part := PercentDecode(a.host);
      if part.None? { return false; }
      host := part.value;
      part := PercentDecode(a.ipv6);
      if part.None? { return false; }
      ipv6 := part.value;
      part := PercentDecode(a.port);
      if part.None? { return false; }
      port := part.value;
      if !Digits(port) { return false; }
      part := PercentDecode(a.user);
      if part.None? { return false; }
      user := part.value;
      part := PercentDecode(a.password);
      if part.None? { return false; }
      password := part.value;
      host, ipv6 := Lower(host), Lower(ipv6);
      return true;
    }

    method ParseTail(s: string) returns (ok: bool)
      requires s == "" || s[0] in TAIL
      modifies this
      ensures Outcome(ok, View()) == TailInto(old(View()), s)
    {
      var url := s;
      while url != ""
        invariant url == "" || url[0] in TAIL
        invariant TailInto(View(), url) == TailInto(old(View()), s)
        decreases |url|
      {
        if url[0] == '/' {
          var pos := Find(url, {'?', '#'});
          var part := PercentDecode(url[..pos]);
          if part.None? { return false; }
          path := part.value;
          url := url[pos..];
        } else if url[0] == '?' {
          url := url[1..];
          var pos := Find(url, {'#'});
          if url[..pos] != "" {
            var dict := ParseQuery(url[..pos]);
            if dict.None? { return false; }
            query := dict.value;
          }
          url := url[pos..];
        } else {
          var part := PercentDecode(url[1..]);
          if part.None? { return false; }
          fragment := part.value;
          url := "";
        }
      }
      return true;
    }

    method Normalize(order: seq<string>) returns (res: string)
      requires Enumerates(order, query)
      ensures res == Printed(View(), order)
    {
      res := "";
      if scheme != "" { res := scheme + "://"; }
      var part := NormalizeAuthority();
      res := res + part;
      res := res + path;
      res := AppendQuery(res, order);
      ghost var before := res;
      if fragment != "" {
        part := PercentEncode(fragment);
        res := res + "#";
        res := res + part;
        Associate(before, "#", part);
      } else {
        assert res + "" == res;
      }
    }

    method NormalizeAuthority() returns (res: string)
      ensures res == AuthorityText(View())
    {
      res := "";
      if host != "" {
        EncodedEmptyIff(user);
        EncodedEmptyIff(password);
        if user != "" {
          res := PercentEncode(user);
          if password != "" {
            var part := PercentEncode(password);
            res := res + ":" + part;
          }
          res := res + "@";
        }
        res := res + host;
        if port != "" { res := res + ":" + port; }
      } else if ipv6 != "" {
        if user != "" {
          res := user;
          if password != "" { res := res + ":" + password; }
          res := res + "@";
        }
        res := res + "[" + ipv6 + "]";
        if port != "" { res := res + ":" + port; }
      }
    }

    method AppendQuery(front: string, order: seq<string>) returns (res: string)
      requires Enumerates(order, query)
      ensures res == front + Pairs('?', order, query)
    {
      res := front;
      var lead := '?';
      assert order[0..] == order;
      for i := 0 to |order|
        invariant i > 0 ==> lead == '&'
        invariant res + Pairs(lead, order[i..], query) == front + Pairs('?', order, query)
      {
        var k := order[i];
        var left := PercentEncode(k);
        var right := PercentEncode(query[k]);
        ghost var done := res;
        res := res + [lead] + left + "=" + right;
        assert order[i..][1..] == order[i + 1..];
        Regroup(done, lead, left, right, Pairs('&', order[i + 1..], query));
        lead := '&';
      }
      assert res + "" == res;
    }
  }

  lemma {:induction false} Regroup(done: string, lead: char, k: string, v: string, more: string)
    ensures done + [lead] + k + "=" + v + more == done + ([lead] + (k + "=" + v + more))
  {
    Associate(done + [lead], k, "=");
    Associate(done + [lead], k + "=", v);
    Associate(done + [lead], k + "=" + v, more);
    Associate(done, [lead], k + "=" + v + more);
  }

  method ParseQuery(s: string) returns (dict: Option<map<string, string>>)
    ensures dict == QueryFrom(map[], s)
  {
    var query, res: map<string, string> := s, map[];
    while query != ""
      invariant QueryFrom(res, query) == QueryFrom(map[], s)
      decreases |query|
    {
      var pos := Find(query, {'&'});
      var pair := query[..pos];
      query := query[if pos < |query| then pos + 1 else pos..];
      pos := Find(pair, {'='});
      if pos == |pair| { return None; }
      var key := PercentDecode(pair[..pos]);
      if key.None? { return None; }
      var val := PercentDecode(pair[pos + 1..]);
      if val.None? { return None; }
      res := res[key.value := val.value];
    }
    return Some(res);
  }
}
