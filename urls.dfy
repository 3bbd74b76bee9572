/** The URL handling the pollers rely on: `url.Parse` reduced to scheme,
    host and path; `path.Dir` on clean paths; and the segment URL the
    pollers build with `fmt.Sprintf("%s://%s%s/%s", ...)`. */
module Urls {
  import opened Hls

  datatype Url = Url(scheme: string, host: string, path: string)

  /** Index of the first element of `s` that is in `cs`, or |s| if none is. */
  function IndexOfAny(s: string, cs: set<char>): (i: nat)
    ensures i <= |s|
    ensures forall j :: 0 <= j < i ==> s[j] !in cs
    ensures i < |s| ==> s[i] in cs
  {
    if s == [] then 0
    else if s[0] in cs then 0
    else 1 + IndexOfAny(s[1..], cs)
  }

  /** Index of the last `c` in `s`, if there is one. */
  function LastIndex(s: string, c: char): (r: Option<nat>)
    ensures r.Some? ==>
      && r.value < |s| && s[r.value] == c
      && forall j :: r.value < j < |s| ==> s[j] != c
    ensures r.None? ==> c !in s
  {
    if s == [] then None
    else if s[|s| - 1] == c then Some(|s| - 1)
    else
      var r := LastIndex(s[..|s| - 1], c);
      assert forall j :: 0 <= j < |s| - 1 ==> s[..|s| - 1][j] == s[j];
      r
  }

  predicate IsLetter(c: char) {
    'a' <= c <= 'z' || 'A' <= c <= 'Z'
  }

  /** A character `getScheme` lets through: a letter, a digit, '+', '-'
      or '.'. */
  predicate SchemeChar(c: char) {
    IsLetter(c) || '0' <= c <= '9' || c == '+' || c == '-' || c == '.'
  }

  /** The number of scheme characters `t` starts with. */
  function SchemeLength(t: string): (n: nat)
    ensures n <= |t|
    ensures forall j :: 0 <= j < n ==> SchemeChar(t[j])
    ensures n < |t| ==> !SchemeChar(t[n])
  {
    if t == [] || !SchemeChar(t[0]) then 0 else 1 + SchemeLength(t[1..])
  }

  /** `t` starts with a scheme: a letter, then scheme characters, then ':'. */
  predicate HasScheme(t: string) {
    var n := SchemeLength(t);
    0 < n < |t| && t[n] == ':' && IsLetter(t[0])
  }

  /** `strings.ToLower` on ASCII letters. */
  function Lower(s: string): (r: string)
    ensures |r| == |s|
  {
    if s == [] then []
    else [if 'A' <= s[0] <= 'Z' then (s[0] as int + 32) as char else s[0]] + Lower(s[1..])
  }

  /** `url.Parse`, without percent-decoding and host checks: the fragment
      and the query are cut off at the first '#' or '?'; a scheme is
      recognised and lower-cased; a scheme followed by anything but '/' is
      an opaque URL, which has no host and an empty path; "//" (with a
      scheme, or without one when no third '/' follows) starts an
      authority that runs to the next '/', whose host follows the last '@';
      the rest is the path. */
  function Parse(s: string): Url {
    ParseReference(s[..IndexOfAny(s, {'?', '#'})])
  }

  function ParseReference(t: string): Url {
    if HasScheme(t) then
      var n := SchemeLength(t);
      ParseRest(Lower(t[..n]), t[n + 1..])
    else ParseRest("", t)
  }

  function ParseRest(scheme: string, rest: string): Url {
    if rest == [] || rest[0] != '/' then
      if scheme != [] then Url(scheme, "", "") else Url("", "", rest)
    else if |rest| >= 2 && rest[1] == '/' && (scheme != [] || |rest| < 3 || rest[2] != '/') then
      ParseAuthority(scheme, rest[2..])
    else Url(scheme, "", rest)
  }

  function ParseAuthority(scheme: string, a: string): Url {
    var j := IndexOfAny(a, {'/'});
    Url(scheme, HostOf(a[..j]), a[j..])
  }

  /** The host of an authority: what follows the last '@', if any. */
  function HostOf(authority: string): string {
    match LastIndex(authority, '@')
    case None => authority
    case Some(k) => authority[k + 1..]
  }

  /** `URL.String` for the URLs Parse reads back. */
  function Format(u: Url): string {
    u.scheme + "://" + u.host + u.path
  }

  /** A URL of the shape the playlist endpoints hand out. */
  ghost predicate WellFormed(u: Url) {
    && u.scheme != [] && IsLetter(u.scheme[0])
    && (forall c :: c in u.scheme ==> SchemeChar(c))
    && (forall c :: c in u.host ==> c !in {'/', '?', '#', '@'})
    && (forall c :: c in u.path ==> c !in {'?', '#'})
    && (u.path == [] || u.path[0] == '/')
  }

  lemma {:induction false} IndexOfAnyAppend(a: string, b: string, cs: set<char>)
    requires forall c :: c in a ==> c !in cs
    ensures IndexOfAny(a + b, cs) == |a| + IndexOfAny(b, cs)
  {
    if a != [] {
      assert (a + b)[1..] == a[1..] + b;
      IndexOfAnyAppend(a[1..], b, cs);
    } else {
      assert a + b == b;
    }
  }

  lemma IndexOfAnyNone(s: string, cs: set<char>)
    requires forall c :: c in s ==> c !in cs
    ensures IndexOfAny(s, cs) == |s|
  {
  }

  lemma {:induction false} SchemeLengthAppend(a: string, b: string)
    requires forall c :: c in a ==> SchemeChar(c)
    requires b != [] && !SchemeChar(b[0])
    ensures SchemeLength(a + b) == |a|
  {
    if a != [] {
      assert a[0] in a;
      assert (a + b)[1..] == a[1..] + b;
      SchemeLengthAppend(a[1..], b);
    } else {
      assert a + b == b;
    }
  }

  /** Lower-casing leaves a string without capitals as it is. */
  lemma {:induction false} LowerLower(s: string)
    requires forall c :: c in s ==> !('A' <= c <= 'Z')
    ensures Lower(s) == s
  {
    if s != [] {
      assert s[0] in s;
      assert forall c :: c in s[1..] ==> c in s;
      LowerLower(s[1..]);
    }
  }

  /** Two strings free of the characters `cs` make one. */
  lemma Free(a: string, b: string, cs: set<char>)
    requires forall c :: c in a ==> c !in cs
    requires forall c :: c in b ==> c !in cs
    ensures forall c :: c in a + b ==> c !in cs
  {
  }

  lemma Regroup<T>(a: seq<T>, b: seq<T>, c: seq<T>, d: seq<T>)
    ensures a + b + c + d == a + (b + (c + d))
  {
  }

  lemma DropColon(x: string)
    ensures ("://" + x)[1..] == "//" + x
  {
  }

  /** After a scheme, "//" starts the authority. */
  lemma {:induction false} ParseRestAuthority(scheme: string, a: string)
    requires scheme != []
    ensures ParseRest(scheme, "//" + a) == ParseAuthority(scheme, a)
  {
    assert ("//" + a)[2..] == a;
  }

  /** Text free of '?' and '#' is parsed whole. */
  lemma {:induction false} ParseWhole(s: string)
    requires forall c :: c in s ==> c !in {'?', '#'}
    ensures Parse(s) == ParseReference(s)
  {
    IndexOfAnyNone(s, {'?', '#'});
    assert s[..|s|] == s;
  }

  /** A scheme followed by ':' is split off there and lower-cased. */
  lemma {:induction false} ParseReferenceSplit(scheme: string, tail: string)
    requires scheme != [] && IsLetter(scheme[0]) && forall c :: c in scheme ==> SchemeChar(c)
    requires tail != [] && tail[0] == ':'
    ensures ParseReference(scheme + tail) == ParseRest(Lower(scheme), tail[1..])
  {
    var t := scheme + tail;
    SchemeLengthAppend(scheme, tail);
    assert t[..|scheme|] == scheme;
    assert t[|scheme| + 1..] == tail[1..];
  }

  /** Text free of '?' and '#' that starts with a scheme is split after
      the ':', and the scheme is lower-cased. */
  lemma {:induction false} ParseSchemeTail(scheme: string, tail: string)
    requires scheme != [] && IsLetter(scheme[0]) && forall c :: c in scheme ==> SchemeChar(c)
    requires tail != [] && tail[0] == ':'
    requires forall c :: c in tail ==> c !in {'?', '#'}
    ensures Parse(scheme + tail) == ParseRest(Lower(scheme), tail[1..])
  {
    Free(scheme, tail, {'?', '#'});
    ParseWhole(scheme + tail);
    ParseReferenceSplit(scheme, tail);
  }

  /** A scheme followed by "://" is lower-cased, and the authority starts
      after it. */
  lemma {:induction false} ParseSchemed(scheme: string, a: string)
    requires scheme != [] && IsLetter(scheme[0]) && forall c :: c in scheme ==> SchemeChar(c)
    requires forall c :: c in a ==> c !in {'?', '#'}
    ensures Parse(scheme + "://" + a) == ParseAuthority(Lower(scheme), a)
  {
    Free("://", a, {'?', '#'});
    assert scheme + "://" + a == scheme + ("://" + a);
    ParseSchemeTail(scheme, "://" + a);
    DropColon(a);
    ParseRestAuthority(Lower(scheme), a);
  }

  /** Parsing the text of a well-formed URL gives the URL back, with its
      scheme lower-cased. */
  lemma {:induction false} ParseFormat(u: Url)
    requires WellFormed(u)
    ensures Parse(Format(u)) == u.(scheme := Lower(u.scheme))
  {
    assert Format(u) == u.scheme + "://" + (u.host + u.path) by {
      Regroup([], u.scheme + "://", u.host, u.path);
    }
    Free(u.host, u.path, {'?', '#'});
    ParseSchemed(u.scheme, u.host + u.path);
    ParseAuthorityFormat(Lower(u.scheme), [], u);
    assert [] + u.host + u.path == u.host + u.path;
  }

  /** With no capital in the scheme, the round trip is exact. */
  lemma {:induction false} ParseFormatLower(u: Url)
    requires WellFormed(u) && forall c :: c in u.scheme ==> !('A' <= c <= 'Z')
    ensures Parse(Format(u)) == u
  {
    ParseFormat(u);
    LowerLower(u.scheme);
  }

  /** The authority `user` + host, followed by the path, gives back the
      host and the path; `user` is either empty or userinfo ending in '@'. */
  lemma {:induction false} ParseAuthorityFormat(scheme: string, user: string, u: Url)
    requires WellFormed(u)
    requires user == [] || (user[|user| - 1] == '@' && '/' !in user)
    ensures ParseAuthority(scheme, user + u.host + u.path) == Url(scheme, u.host, u.path)
  {
    var auth := user + u.host;
    var a := auth + u.path;
    assert user + u.host + u.path == a;
    assert '/' !in auth by {
      assert forall c :: c in auth ==> c in user || c in u.host;
    }
    if u.path == [] {
      assert a == auth;
      IndexOfAnyNone(auth, {'/'});
    } else {
      IndexOfAnyAppend(auth, u.path, {'/'});
    }
    assert a[..|auth|] == auth;
    assert a[|auth|..] == u.path;
    HostOfUser(user, u.host);
  }

  /** The host is what follows the userinfo. */
  lemma {:induction false} HostOfUser(user: string, host: string)
    requires user == [] || user[|user| - 1] == '@'
    requires '@' !in host
    ensures HostOf(user + host) == host
  {
    var auth := user + host;
    if user == [] {
      assert auth == host;
    } else {
      var k := |user| - 1;
      assert auth[k] == '@';
      forall j | k < j < |auth| ensures auth[j] != '@' {
        assert auth[j] == host[j - |user|];
      }
      assert LastIndex(auth, '@') == Some(k);
      assert auth[k + 1..] == host;
    }
  }

  /** Userinfo before the host is dropped. */
  lemma {:induction false} ParseUserinfo(u: Url, user: string)
    requires WellFormed(u)
    requires forall c :: c in user ==> c !in {'/', '?', '#', '@'}
    ensures Parse(u.scheme + "://" + user + "@" + u.host + u.path) == u.(scheme := Lower(u.scheme))
  {
    var at := user + "@";
    var a := at + u.host + u.path;
    assert u.scheme + "://" + user + "@" + u.host + u.path == u.scheme + "://" + a by {
      Regroup(u.scheme + "://", user, "@", u.host);
      Regroup(u.scheme + "://", at, u.host, u.path);
    }
    assert forall c :: c in a ==> c !in {'?', '#'} by {
      assert forall c :: c in a ==> c in user || c == '@' || c in u.host || c in u.path;
    }
    ParseSchemed(u.scheme, a);
    assert at[|at| - 1] == '@';
    assert '/' !in at by {
      assert forall c :: c in at ==> c in user || c == '@';
    }
    ParseAuthorityFormat(Lower(u.scheme), at, u);
  }

  /** A scheme followed by anything but '/' makes an opaque URL: no host
      and an empty path. */
  lemma {:induction false} ParseOpaque(scheme: string, rest: string)
    requires scheme != [] && IsLetter(scheme[0]) && forall c :: c in scheme ==> SchemeChar(c)
    requires rest != [] ==> rest[0] != '/'
    requires forall c :: c in rest ==> c !in {'?', '#'}
    ensures Parse(scheme + ":" + rest) == Url(Lower(scheme), "", "")
  {
    Free(":", rest, {'?', '#'});
    assert scheme + ":" + rest == scheme + (":" + rest);
    ParseSchemeTail(scheme, ":" + rest);
    assert (":" + rest)[1..] == rest;
    assert Lower(scheme) != [];
  }

  /** Without a scheme, "//" followed by a host starts an authority. */
  lemma {:induction false} ParseSchemeRelative(host: string, path: string)
    requires WellFormed(Url("x", host, path))
    requires host != [] || path == []
    ensures Parse("//" + host + path) == Url("", host, path)
  {
    var a := host + path;
    assert "//" + host + path == "//" + a by {
      Regroup([], "//", host, path);
    }
    Free(host, path, {'?', '#'});
    if host != [] {
      assert a[0] == host[0] && host[0] in host;
    }
    ParseRelative(a);
    ParseAuthorityFormat("", [], Url("x", host, path));
    assert [] + host + path == a;
  }

  /** Without a scheme, "//" not followed by a third '/' starts an
      authority. */
  lemma {:induction false} ParseRelative(a: string)
    requires forall c :: c in a ==> c !in {'?', '#'}
    requires a == [] || a[0] != '/'
    ensures Parse("//" + a) == ParseAuthority("", a)
  {
    var s := "//" + a;
    Free("//", a, {'?', '#'});
    ParseWhole(s);
    assert SchemeLength(s) == 0;
    assert s[2..] == a;
  }

  /** A query after text free of '?' and '#' is cut off. */
  lemma {:induction false} ParseQuery(s: string, q: string)
    requires forall c :: c in s ==> c !in {'?', '#'}
    requires q != [] && q[0] == '?'
    ensures Parse(s + q) == Parse(s)
  {
    IndexOfAnyAppend(s, q, {'?', '#'});
    assert (s + q)[..|s|] == s;
    ParseWhole(s);
  }

  /** The token endpoint of a channel, as `http.NewRequest` parses it. */
  lemma TokenUrlParse(channel: string)
    requires forall c :: c in channel ==> c !in {'?', '#'}
    ensures Parse(TokenUrl(channel)) == Url("http", "api.twitch.tv", "/api/channels/" + channel + "/access_token")
  {
    var u := Url("http", "api.twitch.tv", "/api/channels/" + channel + "/access_token");
    TokenUrlFormat(channel);
    Free("/api/channels/", channel, {'?', '#'});
    Free("/api/channels/" + channel, "/access_token", {'?', '#'});
    ParseFormatLower(u);
  }

  lemma TokenUrlFormat(channel: string)
    ensures TokenUrl(channel) == Format(Url("http", "api.twitch.tv", "/api/channels/" + channel + "/access_token"))
  {
    var prefix := "http" + "://" + "api.twitch.tv";
    assert prefix == "http://api.twitch.tv";
    assert "http://api.twitch.tv/api/channels/" == prefix + "/api/channels/";
    Regroup(prefix, "/api/channels/", channel, "/access_token");
  }

  /** The usher URL of a channel, as `getVariant` parses it: the query
      that carries the credential is cut off, and the playlist path names
      the channel. */
  lemma UsherUrlParse(channel: string, token: string, signature: string)
    requires forall c :: c in channel ==> c !in {'?', '#'}
    ensures Parse(UsherUrl(channel, token, signature))
         == Url("http", "usher.twitch.tv", "/api/channel/hls/" + channel + ".m3u8")
  {
    var u := Url("http", "usher.twitch.tv", "/api/channel/hls/" + channel + ".m3u8");
    UsherPlaylistFormat(channel);
    UsherWellFormed(channel);
    Free("http", "://", {'?', '#'});
    Free("http://", u.host, {'?', '#'});
    Free("http://" + u.host, u.path, {'?', '#'});
    ParseQuery(Format(u), UsherQuery(token, signature));
    ParseFormatLower(u);
  }

  lemma UsherWellFormed(channel: string)
    requires forall c :: c in channel ==> c !in {'?', '#'}
    ensures var u := Url("http", "usher.twitch.tv", "/api/channel/hls/" + channel + ".m3u8");
      && WellFormed(u) && forall c :: c in u.scheme ==> !('A' <= c <= 'Z')
  {
    var host := "usher.twitch.tv";
    assert forall c :: c in host ==> c !in {'/', '?', '#', '@'} by {
      assert host == "usher" + ".twitch" + ".tv";
      Free("usher", ".twitch", {'/', '?', '#', '@'});
      Free("usher" + ".twitch", ".tv", {'/', '?', '#', '@'});
    }
    Free("/api/channel/hls/", channel, {'?', '#'});
    Free("/api/channel/hls/" + channel, ".m3u8", {'?', '#'});
  }

  lemma UsherPlaylistFormat(channel: string)
    ensures UsherPlaylist(channel) == Format(Url("http", "usher.twitch.tv", "/api/channel/hls/" + channel + ".m3u8"))
  {
    var prefix := "http" + "://" + "usher.twitch.tv";
    assert prefix == "http://usher.twitch.tv";
    assert "http://usher.twitch.tv/api/channel/hls/" == prefix + "/api/channel/hls/";
    Regroup(prefix, "/api/channel/hls/", channel, ".m3u8");
  }

  /** `path.Dir` on a clean path: everything before the last '/', "/" when
      that is the only one, "." when there is none. */
  function Dir(p: string): string {
    match LastIndex(p, '/')
    case None => "."
    case Some(k) => if k == 0 then "/" else p[..k]
  }

  /** The directory is "." without a '/'; otherwise it is the prefix of
      the path that stops before its last '/', or "/" when that '/' is the
      first character. */
  lemma DirSpec(p: string)
    ensures var r := Dir(p);
      && ('/' !in p ==> r == ".")
      && ('/' in p ==>
            || (r == "/" && p[0] == '/' && '/' !in p[1..])
            || (0 < |r| < |p| && p[..|r|] == r && p[|r|] == '/' && '/' !in p[|r| + 1..]))
  {
  }

  /** The URL the pollers queue for a segment found in the media playlist
      at `base`: scheme://host + Dir(path) + "/" + the segment's URI, with
      no special case for a segment URI that is already absolute. */
  function SegmentUrl(base: Url, segment: string): string {
    base.scheme + "://" + base.host + Dir(base.path) + "/" + segment
  }

  /** The queued URL keeps the playlist's scheme and host and ends with the
      segment URI, after a '/'. */
  lemma SegmentUrlShape(base: Url, segment: string)
    ensures var r := SegmentUrl(base, segment);
      && |r| > |segment| && r[|r| - |segment|..] == segment && r[|r| - |segment| - 1] == '/'
      && |base.scheme + "://" + base.host| <= |r|
      && r[..|base.scheme + "://" + base.host|] == base.scheme + "://" + base.host
  {
    var r := SegmentUrl(base, segment);
    var authority := base.scheme + "://" + base.host;
    assert r == authority + (Dir(base.path) + "/") + segment;
    assert r[..|authority|] == authority;
  }

  lemma {:induction false} LastSlashAppend(d: string, name: string)
    requires '/' !in name
    ensures LastIndex(d + "/" + name, '/') == Some(|d|)
  {
    var s := d + "/" + name;
    if name == [] {
      assert s[|s| - 1] == '/';
    } else {
      assert s[|s| - 1] == name[|name| - 1];
      assert s[..|s| - 1] == d + "/" + name[..|name| - 1];
      LastSlashAppend(d, name[..|name| - 1]);
    }
  }

  /** A segment listed beside the media playlist resolves to a sibling of
      the playlist: the playlist's file name is replaced by the segment URI. */
  lemma SegmentUrlSibling(scheme: string, host: string, dir: string, file: string, segment: string)
    requires dir != [] && '/' !in file
    ensures SegmentUrl(Url(scheme, host, dir + "/" + file), segment)
         == scheme + "://" + host + dir + "/" + segment
  {
    LastSlashAppend(dir, file);
    assert (dir + "/" + file)[..|dir|] == dir;
  }

  /** A playlist at the root of the host gives a doubled slash, because
      `path.Dir` returns "/" and the format adds another one. */
  lemma SegmentUrlAtRoot(scheme: string, host: string, file: string, segment: string)
    requires '/' !in file
    ensures SegmentUrl(Url(scheme, host, "/" + file), segment)
         == scheme + "://" + host + "//" + segment
  {
    LastSlashAppend([], file);
    assert [] + "/" + file == "/" + file;
  }

  /** The relative segment "s.ts" of the playlist http://h/d/i.m3u8. */
  lemma SegmentUrlExample()
    ensures SegmentUrl(Url("http", "h", "/d/i.m3u8"), "s.ts") == "http://h/d/s.ts"
  {
    assert "/d/i.m3u8" == "/d" + "/" + "i.m3u8";
    SegmentUrlSibling("http", "h", "/d", "i.m3u8", "s.ts");
  }

  /** An absolute segment URI is not passed through: it is appended to the
      playlist's directory like any other. */
  lemma AbsoluteSegmentIsJoined(base: Url, segment: string)
    ensures SegmentUrl(base, segment) != segment
  {
    SegmentUrlShape(base, segment);
  }

  /** The URLs queued for `segments`, all found in the media playlist at
      `base`, in order. */
  function Join(base: Url, segments: seq<string>): (r: seq<string>)
    ensures |r| == |segments|
  {
    if segments == [] then [] else [SegmentUrl(base, segments[0])] + Join(base, segments[1..])
  }

  /** The URLs queued for `segments` when the k-th was found in the media
      playlist at `bases[k]`. */
  function JoinEach(bases: seq<Url>, segments: seq<string>): (r: seq<string>)
    requires |bases| == |segments|
    ensures |r| == |segments|
  {
    if segments == [] then [] else [SegmentUrl(bases[0], segments[0])] + JoinEach(bases[1..], segments[1..])
  }

  /** Each queued URL is the segment URL of the entry at the same index. */
  lemma {:induction false} JoinEachSpec(bases: seq<Url>, segments: seq<string>)
    requires |bases| == |segments|
    ensures forall k :: 0 <= k < |segments| ==> JoinEach(bases, segments)[k] == SegmentUrl(bases[k], segments[k])
  {
    if segments != [] {
      JoinEachSpec(bases[1..], segments[1..]);
    }
  }

  /** Queuing two batches one after the other queues their concatenation. */
  lemma {:induction false} JoinEachAppend(b1: seq<Url>, s1: seq<string>, b2: seq<Url>, s2: seq<string>)
    requires |b1| == |s1| && |b2| == |s2|
    ensures JoinEach(b1 + b2, s1 + s2) == JoinEach(b1, s1) + JoinEach(b2, s2)
  {
    if s1 != [] {
      var head := [SegmentUrl(b1[0], s1[0])];
      assert (b1 + b2)[1..] == b1[1..] + b2;
      assert (s1 + s2)[1..] == s1[1..] + s2;
      assert JoinEach(b1 + b2, s1 + s2) == head + JoinEach(b1[1..] + b2, s1[1..] + s2);
      JoinEachAppend(b1[1..], s1[1..], b2, s2);
      assert JoinEach(b1, s1) == head + JoinEach(b1[1..], s1[1..]);
    } else {
      assert b1 + b2 == b2 && s1 + s2 == s2;
    }
  }

  /** A batch from one media playlist is a pairwise join under a constant
      base. */
  lemma {:induction false} JoinIsJoinEach(base: Url, segments: seq<string>)
    ensures Join(base, segments) == JoinEach(Repeat(base, |segments|), segments)
  {
    if segments != [] {
      var bases := Repeat(base, |segments|);
      assert bases[1..] == Repeat(base, |segments| - 1);
      JoinIsJoinEach(base, segments[1..]);
    }
  }

  /** Every URL of a batch is joined onto the same playlist directory. */
  lemma JoinSpec(base: Url, segments: seq<string>)
    ensures forall k :: 0 <= k < |segments| ==> Join(base, segments)[k] == SegmentUrl(base, segments[k])
  {
    JoinIsJoinEach(base, segments);
    JoinEachSpec(Repeat(base, |segments|), segments);
  }

  /** Queuing one more batch from the media playlist at `base` extends the
      pairwise join by that batch. */
  lemma JoinEachExtend(sent: seq<string>, bases: seq<Url>, segments: seq<string>, base: Url, batch: seq<string>)
    requires |bases| == |segments|
    ensures |bases + Repeat(base, |batch|)| == |segments + batch|
    ensures sent + JoinEach(bases, segments) + Join(base, batch)
         == sent + JoinEach(bases + Repeat(base, |batch|), segments + batch)
  {
    JoinIsJoinEach(base, batch);
    JoinEachAppend(bases, segments, Repeat(base, |batch|), batch);
  }
}
