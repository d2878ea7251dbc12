/** What any successful parse into a fresh URL object leaves in it. */
module UrlImage {
  import opened Basics
  import opened UrlText
  import opened UrlParser

  predicate Readable(f: Fields) {
    && ValidScheme(f.scheme) && Lower(f.scheme) == f.scheme
    && Lower(f.host) == f.host && Lower(f.ipv6) == f.ipv6 && (f.host == "" || f.ipv6 == "")
    && Avoids(f.host, TAIL + {':'}) && Avoids(f.ipv6, TAIL + {']'})
    && Avoids(f.user, TAIL + {'@', ':'}) && Avoids(f.password, TAIL + {'@'})
    && Digits(f.port) && (f.ipv6 != "" ==> f.port == "")
    && (f.path == "" || f.path[0] == '/') && Avoids(f.path, {'?', '#'})
    && Locates(f)
  }

  lemma {:induction false} AvoidsPart(s: string, i: nat, j: nat, cs: set<char>)
    requires Avoids(s, cs) && i <= j <= |s|
    ensures Avoids(s[i..j], cs)
  {
    forall k | 0 <= k < |s[i..j]| ensures s[i..j][k] !in cs { assert s[i..j][k] == s[i + k]; }
  }

  lemma {:induction false} AvoidsBoth(s: string, cs: set<char>, ds: set<char>)
    requires Avoids(s, cs) && Avoids(s, ds)
    ensures Avoids(s, cs + ds)
  {}

  // ---- the parts of an authority ----

  predicate RawParts(p: Authority) {
    && Avoids(p.host, TAIL + {':'}) && Avoids(p.ipv6, TAIL + {']'})
    && Avoids(p.user, TAIL + {'@', ':'}) && Avoids(p.password, TAIL + {'@'})
    && (p.host == "" || p.ipv6 == "") && (p.ipv6 == "" || p.port == "" || p.port[0] == ':')
  }

  lemma {:induction false} HostParts(a: string, u: string, p: string)
    requires a != "" && Avoids(a, TAIL) && SplitHost(a, u, p).Some?
    requires Avoids(u, TAIL + {'@', ':'}) && Avoids(p, TAIL + {'@'})
    ensures RawParts(SplitHost(a, u, p).value)
  {
    if a[0] == '[' {
      var pos := Find(a, {']'});
      AvoidsPart(a, 1, pos, TAIL);
      AvoidsPart(a[..pos], 1, pos, {']'});
      assert a[..pos][1..pos] == a[1..pos];
      AvoidsBoth(a[1..pos], TAIL, {']'});
    } else {
      var pos := Find(a, {':'});
      AvoidsPart(a, 0, pos, TAIL);
      AvoidsBoth(a[..pos], TAIL, {':'});
    }
  }

  lemma {:induction false} AuthorityParts(a: string)
    requires a != "" && Avoids(a, TAIL) && ParseAuthority(a).Some?
    ensures RawParts(ParseAuthority(a).value)
  {
    var at := Find(a, {'@'});
    if at == |a| {
      HostParts(a, "", "");
    } else {
      var info := a[..at];
      var colon := Find(info, {':'});
      AvoidsPart(a, 0, at, TAIL);
      AvoidsBoth(info, TAIL, {'@'});
      AvoidsPart(info, 0, colon, TAIL + {'@'});
      AvoidsBoth(info[..colon], TAIL + {'@'}, {':'});
      if colon < |info| { AvoidsPart(info, colon + 1, |info|, TAIL + {'@'}); }
      AvoidsPart(a, at + 1, |a|, TAIL);
      assert TAIL + {'@'} + {':'} == TAIL + {'@', ':'};
      HostParts(a[at + 1..], info[..colon], if colon < |info| then info[colon + 1..] else "");
    }
  }

  lemma {:induction false} ColonIsNoPort(s: string)
    requires s != "" && s[0] == ':' && Decoded(s).Some?
    ensures !Digits(Decoded(s).value)
  {
    DecodedFirst(s);
    assert !IsDigit(Decoded(s).value[0]);
  }

  lemma {:induction false} StoredParts(f: Fields, p: Authority)
    requires StoreAuthority(f, p).ok && RawParts(p)
    ensures
      var g := StoreAuthority(f, p).fields;
      && g == f.(user := g.user, password := g.password, host := g.host, ipv6 := g.ipv6, port := g.port)
      && Lower(g.host) == g.host && Lower(g.ipv6) == g.ipv6 && (g.host == "" || g.ipv6 == "")
      && Avoids(g.host, TAIL + {':'}) && Avoids(g.ipv6, TAIL + {']'})
      && Avoids(g.user, TAIL + {'@', ':'}) && Avoids(g.password, TAIL + {'@'})
      && Digits(g.port) && (g.ipv6 != "" ==> g.port == "")
  {
    DecodedAvoids(p.host, TAIL + {':'});
    DecodedAvoids(p.ipv6, TAIL + {']'});
    DecodedAvoids(p.user, TAIL + {'@', ':'});
    DecodedAvoids(p.password, TAIL + {'@'});
    LowerAvoids(Decoded(p.host).value, TAIL + {':'});
    LowerAvoids(Decoded(p.ipv6).value, TAIL + {']'});
    if p.port != "" && p.port[0] == ':' { ColonIsNoPort(p.port); }
    assert Lower("") == "";
  }

  // ---- the whole text ----

  lemma {:induction false} TailImage(f: Fields, s: string)
    requires s == "" || s[0] in TAIL
    ensures
      var g := TailInto(f, s).fields;
      && g == f.(path := g.path, query := g.query, fragment := g.fragment)
      && (g.path == f.path || (g.path != "" && g.path[0] == '/' && Avoids(g.path, {'?', '#'})))
    decreases |s|
  {
    if s != "" {
      if s[0] == '/' {
        var pos := Find(s, {'?', '#'});
        if Decoded(s[..pos]).Some? {
          DecodedFirst(s[..pos]);
          DecodedAvoids(s[..pos], {'?', '#'});
          TailImage(f.(path := Decoded(s[..pos]).value), s[pos..]);
        }
      } else if s[0] == '?' {
        var u := s[1..];
        var pos := Find(u, {'#'});
        if pos == 0 {
          TailImage(f, u[pos..]);
        } else if QueryFrom(map[], u[..pos]).Some? {
          TailImage(f.(query := QueryFrom(map[], u[..pos]).value), u[pos..]);
        }
      }
    }
  }

  lemma {:induction false} RestImage(scheme: string, s: string)
    requires ValidScheme(scheme) && Lower(scheme) == scheme && RestInto(FRESH.(scheme := scheme), s).ok
    ensures Readable(RestInto(FRESH.(scheme := scheme), s).fields)
  {
    var f, pos := FRESH.(scheme := scheme), Find(s, TAIL);
    assert Lower("") == "";
    if s[..pos] != "" {
      AuthorityParts(s[..pos]);
      StoredParts(f, ParseAuthority(s[..pos]).value);
    }
    TailImage(AuthorityInto(f, s[..pos]).fields, s[pos..]);
  }

  lemma {:induction false} LowerScheme(s: string)
    requires ValidScheme(s)
    ensures ValidScheme(Lower(s)) && Lower(Lower(s)) == Lower(s)
  {
    LowerAvoids(s, {});
    forall i | 0 <= i < |s| ensures IsAlpha(Lower(s)[i]) || IsDigit(Lower(s)[i]) || Lower(s)[i] in {'+', '-', '.'} {
      assert IsAlpha(s[i]) || IsDigit(s[i]) || s[i] in {'+', '-', '.'};
    }
  }

  // Whatever the text, a successful parse leaves a place, lower-case scheme and host, fields free
  // of the delimiters that end them, a port of digits, and none after an IPv6 address.
  lemma {:induction false} ParsedIsReadable(text: string)
    requires ParseInto(FRESH, text).ok
    ensures Readable(ParseInto(FRESH, text).fields)
  {
    var s := Trimmed(text);
    var pos := FindMark(s);
    if pos == |s| {
      assert Lower("") == "";
      RestImage("", s);
    } else {
      LowerScheme(s[..pos]);
      RestImage(Lower(s[..pos]), s[pos + 3..]);
    }
  }
}
