/**
  The direct-link classifier of the `/play` command (index.js:58) and the
  watch URL built from a search hit (index.js:76).

  The classifier is the JavaScript regular expression
      ^(https?:\/\/)?(www\.)?(youtube\.com|youtu\.?be)\/.+$
  used without flags, so `^` and `$` anchor to the whole input and `.`
  matches every character except the four JavaScript line terminators.

  `IsDirectLink` follows the expression part by part, collecting the
  remainders each alternative leaves, as a backtracking engine would explore
  them.  `Decomposes` is the independent, declarative reading of the same
  pattern; `DirectLinkIffDecomposes` proves the two agree on every string.
 */
module YouTubeLink {

  /** The characters `.` does not match in a JavaScript regular expression. */
  predicate IsLineTerminator(c: char) {
    c == '\n' || c == '\r' || c == '\U{2028}' || c == '\U{2029}'
  }

  /** `.+$`: at least one character and no line terminator to the end. */
  predicate IsRestOfLine(s: string) {
    |s| > 0 && forall i :: 0 <= i < |s| ==> !IsLineTerminator(s[i])
  }

  /** `(https?:\/\/)?`, in the order the greedy engine tries it. */
  const Schemes: seq<string> := ["https://", "http://", ""]

  /** `(www\.)?` */
  const WwwPrefixes: seq<string> := ["www.", ""]

  /** `(youtube\.com|youtu\.?be)`: the optional dot yields two spellings. */
  const Hosts: seq<string> := ["youtube.com", "youtu.be", "youtube"]

  /** What is left of `s` after each alternative in `alts` that starts it, in order. */
  function Remainders(alts: seq<string>, s: string): seq<string> {
    if alts == [] then []
    else (if alts[0] <= s then [s[|alts[0]|..]] else []) + Remainders(alts[1..], s)
  }

  /** `Remainders` applied to every string of `ss`, concatenated. */
  function RemaindersOfAll(alts: seq<string>, ss: seq<string>): seq<string> {
    if ss == [] then [] else Remainders(alts, ss[0]) + RemaindersOfAll(alts, ss[1..])
  }

  /** Each remainder is what one alternative leaves of `s`. */
  lemma {:induction false} RemainderHasAlternative(alts: seq<string>, s: string, r: string) returns (a: string)
    requires r in Remainders(alts, s)
    ensures a in alts && s == a + r
  {
    var a0 := alts[0];
    if a0 <= s && r == s[|a0|..] {
      a := a0;
      assert s == s[..|a0|] + s[|a0|..];
    } else {
      a := RemainderHasAlternative(alts[1..], s, r);
    }
  }

  /** What any alternative leaves of `s` is among the remainders. */
  lemma {:induction false} AlternativeGivesRemainder(alts: seq<string>, s: string, a: string, r: string)
    requires a in alts && s == a + r
    ensures r in Remainders(alts, s)
  {
    if alts[0] == a {
      assert a <= s && s[|a|..] == r;
    } else {
      AlternativeGivesRemainder(alts[1..], s, a, r);
    }
  }

  /** Each collected remainder comes from one of the strings of `ss`. */
  lemma {:induction false} RemainderOfSome(alts: seq<string>, ss: seq<string>, r: string) returns (t: string)
    requires r in RemaindersOfAll(alts, ss)
    ensures t in ss && r in Remainders(alts, t)
  {
    if r in Remainders(alts, ss[0]) {
      t := ss[0];
    } else {
      t := RemainderOfSome(alts, ss[1..], r);
    }
  }

  /** The remainders of every string of `ss` are collected. */
  lemma {:induction false} SomeGivesRemainder(alts: seq<string>, ss: seq<string>, t: string, r: string)
    requires t in ss && r in Remainders(alts, t)
    ensures r in RemaindersOfAll(alts, ss)
  {
    if ss[0] != t {
      SomeGivesRemainder(alts, ss[1..], t, r);
    }
  }

  /** The strings left once a scheme, a www-prefix, a host (each one of the given
      alternatives) and a slash have been matched at the start of `s`. */
  function Candidates(schemes: seq<string>, wwws: seq<string>, hosts: seq<string>, s: string): seq<string> {
    RemaindersOfAll(["/"], RemaindersOfAll(hosts, RemaindersOfAll(wwws, Remainders(schemes, s))))
  }

  /** `isUrl` of index.js:58: the regular expression matches `s`. */
  predicate IsDirectLink(s: string) {
    exists r :: r in Candidates(Schemes, WwwPrefixes, Hosts, s) && IsRestOfLine(r)
  }

  /** `s` is scheme + www-prefix + host + "/" + rest, the first three allowed by the pattern. */
  predicate Splits(s: string, scheme: string, www: string, host: string, rest: string) {
    scheme in Schemes && www in WwwPrefixes && host in Hosts
    && s == scheme + www + host + "/" + rest
  }

  /** A split whose rest is also allowed by `.+$`: the declarative reading of the pattern. */
  predicate Decomposes(s: string, scheme: string, www: string, host: string, rest: string) {
    Splits(s, scheme, www, host, rest) && IsRestOfLine(rest)
  }

  /** The matcher accepts exactly the strings that decompose as the pattern says. */
  lemma DirectLinkIffDecomposes(s: string)
    ensures IsDirectLink(s) <==> exists sc, w, h, r :: Decomposes(s, sc, w, h, r)
  {
    if IsDirectLink(s) {
      var sc, w, h, r := MatchedParts(s);
    }
    if exists sc, w, h, r :: Decomposes(s, sc, w, h, r) {
      var sc, w, h, r :| Decomposes(s, sc, w, h, r);
      DecompositionMatches(s, sc, w, h, r);
    }
  }

  /** A successful match yields the four parts of a decomposition. */
  lemma MatchedParts(s: string) returns (sc: string, w: string, h: string, r: string)
    requires IsDirectLink(s)
    ensures Decomposes(s, sc, w, h, r)
  {
    r :| r in Candidates(Schemes, WwwPrefixes, Hosts, s) && IsRestOfLine(r);
    sc, w, h := CandidateParts(Schemes, WwwPrefixes, Hosts, s, r);
  }

  /** Every decomposition is found by the matcher. */
  lemma DecompositionMatches(s: string, sc: string, w: string, h: string, r: string)
    requires Decomposes(s, sc, w, h, r)
    ensures IsDirectLink(s)
  {
    PartsGiveCandidate(Schemes, WwwPrefixes, Hosts, s, sc, w, h, r);
  }

  /** Each candidate is what one scheme, www-prefix and host leave after the slash. */
  lemma CandidateParts(schemes: seq<string>, wwws: seq<string>, hosts: seq<string>, s: string, r: string)
    returns (sc: string, w: string, h: string)
    requires r in Candidates(schemes, wwws, hosts, s)
    ensures sc in schemes && w in wwws && h in hosts && s == sc + w + h + "/" + r
  {
    var afterScheme := Remainders(schemes, s);
    var afterWww := RemaindersOfAll(wwws, afterScheme);
    var afterHost := RemaindersOfAll(hosts, afterWww);
    var u := RemainderOfSome(["/"], afterHost, r);
    var slash := RemainderHasAlternative(["/"], u, r);
    var t := RemainderOfSome(hosts, afterWww, u);
    h := RemainderHasAlternative(hosts, t, u);
    var v := RemainderOfSome(wwws, afterScheme, t);
    w := RemainderHasAlternative(wwws, v, t);
    sc := RemainderHasAlternative(schemes, s, v);
    assert slash == "/";
    assert s == sc + (w + (h + ("/" + r)));
    SeqAssoc4(sc, w, h, "/", r);
  }

  /** Splitting off the scheme. */
  lemma SchemeThenRest(sc: string, w: string, h: string, r: string)
    ensures sc + w + h + "/" + r == sc + (w + h + "/" + r)
  {
  }

  /** Regrouping a five-part concatenation. */
  lemma SeqAssoc4(a: string, b: string, c: string, d: string, e: string)
    ensures a + (b + (c + (d + e))) == a + b + c + d + e
  {
  }

  /** Whatever one scheme, www-prefix and host leave after the slash is a candidate. */
  lemma PartsGiveCandidate(schemes: seq<string>, wwws: seq<string>, hosts: seq<string>,
                           s: string, sc: string, w: string, h: string, r: string)
    requires sc in schemes && w in wwws && h in hosts && s == sc + w + h + "/" + r
    ensures r in Candidates(schemes, wwws, hosts, s)
  {
    var u := "/" + r;
    var t := h + u;
    var v := w + t;
    assert s == sc + v;
    var afterScheme := Remainders(schemes, s);
    AlternativeGivesRemainder(schemes, s, sc, v);
    var afterWww := RemaindersOfAll(wwws, afterScheme);
    AlternativeGivesRemainder(wwws, v, w, t);
    SomeGivesRemainder(wwws, afterScheme, v, t);
    var afterHost := RemaindersOfAll(hosts, afterWww);
    AlternativeGivesRemainder(hosts, t, h, u);
    SomeGivesRemainder(hosts, afterWww, t, u);
    AlternativeGivesRemainder(["/"], u, "/", r);
    SomeGivesRemainder(["/"], afterHost, u, r);
  }

  /** The first index at or after `k` where `c` occurs in `s`, or `|s|` when there is none. */
  function Find(s: string, c: char, k: nat): (i: nat)
    requires k <= |s|
    ensures k <= i <= |s|
    ensures i < |s| ==> s[i] == c
    ensures forall j :: k <= j < i ==> s[j] != c
    decreases |s| - k
  {
    if k == |s| then k else if s[k] == c then k else Find(s, c, k + 1)
  }

  /** Index of the first `c` in `s`, or `|s|` when there is none. */
  function IndexOf(s: string, c: char): nat {
    Find(s, c, 0)
  }

  /** `i` is the first index of `c` when `s[i]` is `c` (or `i` is the end) and no `c` comes before. */
  lemma IndexOfIs(s: string, c: char, i: nat)
    requires i <= |s| && (i < |s| ==> s[i] == c) && c !in s[..i]
    ensures IndexOf(s, c) == i
  {
  }

  /** Searching `a + b` from inside `b` is searching `b`, shifted by `|a|`. */
  lemma {:induction false} FindShift(a: string, b: string, c: char, k: nat)
    requires k <= |b|
    ensures Find(a + b, c, |a| + k) == |a| + Find(b, c, k)
    decreases |b| - k
  {
    if k < |b| {
      assert (a + b)[|a| + k] == b[k];
      FindShift(a, b, c, k + 1);
    }
  }

  /** Searching `a + b` from inside `a`: the hit is in `a`, or else the first `c` of `b`. */
  lemma {:induction false} FindConcat(a: string, b: string, c: char, k: nat)
    requires k <= |a|
    ensures Find(a + b, c, k) == if Find(a, c, k) < |a| then Find(a, c, k) else |a| + Find(b, c, 0)
    decreases |a| - k
  {
    if k < |a| {
      assert (a + b)[k] == a[k];
      FindConcat(a, b, c, k + 1);
    } else {
      FindShift(a, b, c, 0);
    }
  }

  /** The first `c` of `a + b` lies in `a` if `a` holds one, else it is found in `b`. */
  lemma IndexOfConcat(a: string, b: string, c: char)
    ensures IndexOf(a + b, c) == if IndexOf(a, c) < |a| then IndexOf(a, c) else |a| + IndexOf(b, c)
  {
    FindConcat(a, b, c, 0);
  }

  /** Where the first slash occurs in each scheme. */
  lemma SchemeFacts(sc: string)
    requires sc in Schemes
    ensures sc == "https://" ==> IndexOf(sc, '/') == 6
    ensures sc == "http://" ==> IndexOf(sc, '/') == 5
  {
    if sc == "https://" {
      IndexOfIs("https://", '/', 6);
    } else if sc == "http://" {
      IndexOfIs("http://", '/', 5);
    }
  }

  /** No www-prefix holds a slash. */
  lemma WwwFacts(w: string)
    requires w in WwwPrefixes
    ensures IndexOf(w, '/') == |w|
  {
    if w == "www." {
      IndexOfIs("www.", '/', 4);
    }
  }

  /** Where the first slash and the first dot occur in each host. */
  lemma HostFacts(h: string)
    requires h in Hosts
    ensures IndexOf(h, '/') == |h|
    ensures h == "youtube.com" ==> IndexOf(h, '.') == 7
    ensures h == "youtu.be" ==> IndexOf(h, '.') == 5
    ensures h == "youtube" ==> IndexOf(h, '.') == 7
  {
    if h == "youtube.com" {
      IndexOfIs("youtube.com", '/', 11);
      IndexOfIs("youtube.com", '.', 7);
    } else if h == "youtu.be" {
      IndexOfIs("youtu.be", '/', 8);
      IndexOfIs("youtu.be", '.', 5);
    } else {
      IndexOfIs("youtube", '/', 7);
      IndexOfIs("youtube", '.', 7);
    }
  }

  /** Past the scheme, the first slash is the one right after the host. */
  lemma FirstSlashAfterHost(t: string, w: string, h: string, r: string)
    requires w in WwwPrefixes && h in Hosts && t == w + h + "/" + r
    ensures IndexOf(t, '/') == |w| + |h| >= 7
  {
    var u := h + ("/" + r);
    assert t == w + u;
    WwwFacts(w);
    HostFacts(h);
    IndexOfConcat(w, u, '/');
    IndexOfConcat(h, "/" + r, '/');
  }

  /** The first slash of a split string: inside the scheme, or right after the host. */
  lemma FirstSlashOfSplit(s: string, sc: string, w: string, h: string, r: string)
    requires Splits(s, sc, w, h, r)
    ensures IndexOf(s, '/') == if sc == "" then |w| + |h| else |sc| - 2
  {
    var t := w + h + "/" + r;
    SchemeThenRest(sc, w, h, r);
    FirstSlashAfterScheme(s, sc, t);
    if sc == "" {
      FirstSlashAfterHost(t, w, h, r);
    }
  }

  /** A scheme's slash comes first; without a scheme the search starts at the host. */
  lemma FirstSlashAfterScheme(s: string, sc: string, t: string)
    requires sc in Schemes && s == sc + t
    ensures IndexOf(s, '/') == if sc == "" then IndexOf(t, '/') else |sc| - 2
  {
    IndexOfConcat(sc, t, '/');
    SchemeFacts(sc);
  }

  /** After the scheme comes "www." or a host: the letter `w` or `y`. */
  lemma AfterSchemeStart(w: string, h: string, r: string)
    requires w in WwwPrefixes && h in Hosts
    ensures (w + h + "/" + r)[0] == if w == "" then 'y' else 'w'
  {
  }

  /** A string splits in at most one way: the alternatives of the pattern are prefix-free. */
  lemma SplitIsUnique(s: string, sc: string, w: string, h: string, r: string,
                      sc': string, w': string, h': string, r': string)
    requires Splits(s, sc, w, h, r) && Splits(s, sc', w', h', r')
    ensures sc == sc' && w == w' && h == h' && r == r'
  {
    var t := w + h + "/" + r;
    var t' := w' + h' + "/" + r';
    SchemeThenRest(sc, w, h, r);
    SchemeThenRest(sc', w', h', r');
    FirstSlashAfterScheme(s, sc, t);
    FirstSlashAfterScheme(s, sc', t');
    FirstSlashAfterHost(t, w, h, r);
    FirstSlashAfterHost(t', w', h', r');
    SchemeByFirstSlash(sc, sc', IndexOf(t, '/'), IndexOf(t', '/'));
    assert s == sc + t && s == sc + t';
    assert t == s[|sc|..] == t';
    HostPartIsUnique(t, w, h, r, w', h', r');
  }

  /** Where the first slash falls tells the scheme apart. */
  lemma SchemeByFirstSlash(sc: string, sc': string, n: nat, n': nat)
    requires sc in Schemes && sc' in Schemes && n >= 7 && n' >= 7
    requires (if sc == "" then n else |sc| - 2) == (if sc' == "" then n' else |sc'| - 2)
    ensures sc == sc'
  {
  }

  /** What follows the scheme splits in at most one way. */
  lemma HostPartIsUnique(t: string, w: string, h: string, r: string, w': string, h': string, r': string)
    requires w in WwwPrefixes && h in Hosts && w' in WwwPrefixes && h' in Hosts
    requires t == w + h + "/" + r && t == w' + h' + "/" + r'
    ensures w == w' && h == h' && r == r'
  {
    AfterSchemeStart(w, h, r);
    AfterSchemeStart(w', h', r');
    FirstSlashAfterHost(t, w, h, r);
    FirstSlashAfterHost(t, w', h', r');
    assert |w| + |h| == |w'| + |h'|;
    assert w == w';
    assert |h| == |h'|;
    assert h == h';
    assert t == (w + h + "/") + r && t == (w + h + "/") + r';
    assert r == t[|w + h + "/"|..] == r';
  }

  /** Every host is at least seven characters long. */
  lemma HostLength(h: string)
    requires h in Hosts
    ensures |h| >= 7 && h[|h| - 1] in "me"
  {
  }

  /** A string made of an allowed scheme, www-prefix and host, a slash and `x` is a
      direct link exactly when `x` is non-empty and free of line terminators. */
  lemma DirectLinkForm(sc: string, w: string, h: string, x: string)
    requires sc in Schemes && w in WwwPrefixes && h in Hosts
    ensures IsDirectLink(sc + w + h + "/" + x) <==> IsRestOfLine(x)
  {
    var s := sc + w + h + "/" + x;
    DirectLinkIffDecomposes(s);
    if IsDirectLink(s) {
      var sc', w', h', r' :| Decomposes(s, sc', w', h', r');
      SplitIsUnique(s, sc, w, h, x, sc', w', h', r');
    } else if IsRestOfLine(x) {
      assert Decomposes(s, sc, w, h, x);
    }
  }

  /** A slash with nothing after it is refused: "youtube.com/" is not a direct link. */
  lemma PathIsRequired(sc: string, w: string, h: string)
    requires sc in Schemes && w in WwwPrefixes && h in Hosts
    ensures !IsDirectLink(sc + w + h + "/")
  {
    DirectLinkForm(sc, w, h, "");
    assert sc + w + h + "/" + "" == sc + w + h + "/";
  }

  /** Every direct link starts with `h` (a scheme), `w` ("www.") or `y` (a host):
      a string with a leading blank, for one, is refused. */
  lemma DirectLinkFirstCharacter(s: string)
    requires IsDirectLink(s)
    ensures |s| > 0 && s[0] in "hwy"
  {
    var sc, w, h, r := MatchedParts(s);
    SchemeThenRest(sc, w, h, r);
    AfterSchemeStart(w, h, r);
  }

  /** A sub-domain other than "www" in front of the host is refused, whatever its
      labels, as in "m.youtube.com/x", "https://music.youtube.com/watch" or
      "www.m.youtube.com/x"; the sub-domain may be anything without a slash. */
  lemma SubdomainIsNotDirectLink(sc: string, sub: string, h: string, x: string)
    requires sc in Schemes && h in Hosts && '/' !in sub && sub != "www"
    ensures !IsDirectLink(sc + sub + "." + h + "/" + x)
  {
    var s := sc + sub + "." + h + "/" + x;
    var t := (sub + "." + h) + ("/" + x);
    if IsDirectLink(s) {
      var sc', w', h', r' := MatchedParts(s);
      var t' := w' + h' + "/" + r';
      SubdomainParts(sc, sub, h, x);
      HostLength(h);
      SchemeThenRest(sc', w', h', r');
      FirstSlashAfterHost(t', w', h', r');
      SchemeIsUnique(s, sc, t, sc', t');
      SubdomainTailClash(sub, h, x, w', h', r');
    }
  }

  /** With a slash-free sub-domain, the string is the scheme, then the dotted name,
      which holds no slash, then the slash after it, which is the first one. */
  lemma SubdomainParts(sc: string, sub: string, h: string, x: string)
    requires h in Hosts && '/' !in sub
    ensures sc + sub + "." + h + "/" + x == sc + ((sub + "." + h) + ("/" + x))
    ensures '/' !in sub + "." + h
    ensures IndexOf((sub + "." + h) + ("/" + x), '/') == |sub| + 1 + |h|
  {
    HostFacts(h);
    assert '/' !in h;
    FirstSlashAt(sub + "." + h, x);
  }

  /** No tail made of a foreign sub-domain, a dot and a host is also a www-prefix,
      a host, a slash and more. */
  lemma SubdomainTailClash(sub: string, h: string, x: string, w': string, h': string, r': string)
    requires '/' !in sub && sub != "www" && h in Hosts && w' in WwwPrefixes && h' in Hosts
    ensures (sub + "." + h) + ("/" + x) != w' + h' + "/" + r'
  {
    if (sub + "." + h) + ("/" + x) == w' + h' + "/" + r' {
      SubdomainParts("", sub, h, x);
      WwwFacts(w');
      HostFacts(h');
      assert '/' !in w' + h';
      assert w' + h' + "/" + r' == (w' + h') + ("/" + r');
      SlashSplit(sub + "." + h, x, w' + h', r');
      DottedHostIsWww(sub, h, w', h');
    }
  }

  /** Two schemes followed by tails whose first slash comes late are the same split. */
  lemma SchemeIsUnique(s: string, sc: string, t: string, sc': string, t': string)
    requires sc in Schemes && sc' in Schemes && s == sc + t && s == sc' + t'
    requires IndexOf(t, '/') >= 7 && IndexOf(t', '/') >= 7
    ensures sc == sc' && t == t'
  {
    FirstSlashAfterScheme(s, sc, t);
    FirstSlashAfterScheme(s, sc', t');
    SchemeByFirstSlash(sc, sc', IndexOf(t, '/'), IndexOf(t', '/'));
    assert t == s[|sc|..] == t';
  }

  /** The first slash of `a + "/" + b` is the one after `a` when `a` has none. */
  lemma FirstSlashAt(a: string, b: string)
    requires '/' !in a
    ensures IndexOf(a + ("/" + b), '/') == |a|
  {
    assert (a + ("/" + b))[..|a|] == a;
    IndexOfIs(a + ("/" + b), '/', |a|);
  }

  /** Splitting at the first slash is unique. */
  lemma SlashSplit(a: string, b: string, c: string, d: string)
    requires '/' !in a && '/' !in c && a + ("/" + b) == c + ("/" + d)
    ensures a == c && b == d
  {
    var s := a + ("/" + b);
    FirstSlashAt(a, b);
    FirstSlashAt(c, d);
    assert a == s[..|a|] == c;
    assert b == s[|a| + 1..] == d;
  }

  /** A sub-domain, a dot and a host spell a www-prefix and a host only as "www." + host. */
  lemma DottedHostIsWww(sub: string, h: string, w': string, h': string)
    requires h in Hosts && w' in WwwPrefixes && h' in Hosts && sub + "." + h == w' + h'
    ensures sub == "www"
  {
    var n := w' + h';
    assert n[|sub|] == '.';
    assert n[|n| - 1] == h[|h| - 1];
    assert sub == n[..|sub|];
  }

  /** A scheme other than `http` and `https` is refused, as in "ws://youtube.com/x"
      or "HTTPS://youtu.be/x"; the scheme may be any slash-free text. */
  lemma OtherSchemeIsNotDirectLink(p: string, rest: string)
    requires '/' !in p && p != "http" && p != "https"
    ensures !IsDirectLink(p + "://" + rest)
  {
    var s := p + "://" + rest;
    if IsDirectLink(s) {
      var sc', w', h', r' := MatchedParts(s);
      OtherSchemeParts(p, rest);
      SchemeThenRest(sc', w', h', r');
      OtherSchemeClash(s, p, sc', w' + h' + "/" + r', w', h', r');
    }
  }

  /** In `p + "://" + rest` with a slash-free `p`, the first slash follows the colon after `p`. */
  lemma OtherSchemeParts(p: string, rest: string)
    requires '/' !in p
    ensures IndexOf(p + "://" + rest, '/') == |p| + 1
    ensures (p + "://" + rest)[|p|] == ':' && (p + "://" + rest)[..|p|] == p
  {
    assert p + "://" + rest == (p + ":") + ("/" + ("/" + rest));
    FirstSlashAt(p + ":", "/" + rest);
  }

  /** No string that starts with `p` and a colon before its first slash splits as a
      link, unless `p` is `http` or `https`. */
  lemma OtherSchemeClash(s: string, p: string, sc': string, t': string, w': string, h': string, r': string)
    requires sc' in Schemes && w' in WwwPrefixes && h' in Hosts && t' == w' + h' + "/" + r'
    requires p != "http" && p != "https"
    requires |p| < |s| && IndexOf(s, '/') == |p| + 1 && s[|p|] == ':' && s[..|p|] == p
    ensures s != sc' + t'
  {
    if s == sc' + t' {
      FirstSlashAfterScheme(s, sc', t');
      if sc' == "" {
        FirstSlashAfterHost(t', w', h', r');
        HostLength(h');
      }
    }
  }

  /** A WebSocket link to YouTube is searched for rather than played. */
  lemma WebSocketLinkExample()
    ensures !IsDirectLink("ws://youtube.com/x")
  {
    OtherSchemeIsNotDirectLink("ws", "youtube.com/x");
    assert "ws" + "://" + "youtube.com/x" == "ws://youtube.com/x";
  }

  /** A sub-domain in front of "www." is refused too. */
  lemma NestedSubdomainExample()
    ensures !IsDirectLink("www.m.youtube.com/x")
  {
    SubdomainIsNotDirectLink("", "www.m", "youtube.com", "x");
    assert "" + "www.m" + "." + "youtube.com" + "/" + "x" == "www.m.youtube.com/x";
  }

  /** Text in front of an explicit scheme is refused, as in "see https://youtu.be/x";
      the text may be anything without a slash. */
  lemma TextBeforeSchemeIsNotDirectLink(junk: string, sc: string, w: string, h: string, x: string)
    requires |junk| > 0 && '/' !in junk
    requires sc in Schemes && sc != "" && w in WwwPrefixes && h in Hosts
    ensures !IsDirectLink(junk + sc + w + h + "/" + x)
  {
    var s := junk + sc + w + h + "/" + x;
    if IsDirectLink(s) {
      var sc', w', h', r' := MatchedParts(s);
      TextBeforeSchemeParts(junk, sc, w, h, x);
      SchemeThenRest(sc', w', h', r');
      HostSchemeClash(s, |junk| + |sc|, sc', w' + h' + "/" + r', w', h', r');
    }
  }

  /** No string whose first slash sits at `n - 2`, right after a colon, and whose
      fifth character is `p` when that slash sits at 6, splits as a link. */
  lemma HostSchemeClash(s: string, n: nat, sc': string, t': string, w': string, h': string, r': string)
    requires sc' in Schemes && w' in WwwPrefixes && h' in Hosts && t' == w' + h' + "/" + r'
    requires n >= 8 && IndexOf(s, '/') == n - 2 && s[n - 3] == ':'
    requires n == 8 ==> s[4] == 'p'
    ensures s != sc' + t'
  {
    if s == sc' + t' {
      FirstSlashAfterScheme(s, sc', t');
      if sc' == "" {
        FirstSlashAfterHost(t', w', h', r');
        HostLength(h');
      }
    }
  }

  /** Where the first slash falls when text precedes the scheme, and the character before it. */
  lemma TextBeforeSchemeParts(junk: string, sc: string, w: string, h: string, x: string)
    requires '/' !in junk && sc in Schemes && sc != ""
    ensures IndexOf(junk + sc + w + h + "/" + x, '/') == |junk| + |sc| - 2
    ensures (junk + sc + w + h + "/" + x)[|junk| + |sc| - 3] == ':'
    ensures (junk + sc + w + h + "/" + x)[|junk| + 3] == 'p'
  {
    var s := junk + sc + w + h + "/" + x;
    var t := w + h + "/" + x;
    assert s == junk + (sc + t);
    IndexOfIs(junk, '/', |junk|);
    IndexOfConcat(junk, sc + t, '/');
    FirstSlashAfterScheme(sc + t, sc, t);
  }

  /** Text in front of a link without a scheme is refused, as in "hello youtube.com/x"
      or "https:youtube.com/x"; the text may be anything without a slash, except that
      "www." in front of a bare host is the www-prefix itself. */
  lemma TextBeforeHostIsNotDirectLink(junk: string, w: string, h: string, x: string)
    requires |junk| > 0 && '/' !in junk && w in WwwPrefixes && h in Hosts
    requires !(w == "" && junk == "www.")
    ensures !IsDirectLink(junk + w + h + "/" + x)
  {
    var s := junk + w + h + "/" + x;
    if IsDirectLink(s) {
      var sc', w', h', r' := MatchedParts(s);
      TextBeforeHostParts(junk, w, h, x);
      SchemeThenRest(sc', w', h', r');
      TextBeforeHostClash(junk, w, h, x, sc', w', h', r');
    }
  }

  /** With slash-free text in front, the first slash is the one after the host. */
  lemma TextBeforeHostParts(junk: string, w: string, h: string, x: string)
    requires '/' !in junk && w in WwwPrefixes && h in Hosts
    ensures junk + w + h + "/" + x == (junk + w + h) + ("/" + x)
    ensures '/' !in junk + w + h
    ensures IndexOf((junk + w + h) + ("/" + x), '/') == |junk| + |w| + |h|
  {
    WwwFacts(w);
    HostFacts(h);
    assert '/' !in w && '/' !in h;
    FirstSlashAt(junk + w + h, x);
  }

  /** No string made of slash-free text, a www-prefix, a host, a slash and more also
      splits as a link, unless the text and the prefix together are just "www.". */
  lemma TextBeforeHostClash(junk: string, w: string, h: string, x: string,
                            sc': string, w': string, h': string, r': string)
    requires |junk| > 0 && '/' !in junk && w in WwwPrefixes && h in Hosts
    requires !(w == "" && junk == "www.")
    requires sc' in Schemes && w' in WwwPrefixes && h' in Hosts
    ensures (junk + w + h) + ("/" + x) != sc' + (w' + h' + "/" + r')
  {
    var s := (junk + w + h) + ("/" + x);
    var t' := w' + h' + "/" + r';
    if s == sc' + t' {
      TextBeforeHostParts(junk, w, h, x);
      HostLength(h);
      FirstSlashAfterScheme(s, sc', t');
      WwwFacts(w');
      HostFacts(h');
      assert '/' !in w' + h';
      assert t' == (w' + h') + ("/" + r');
      SlashSplit(junk + w + h, x, w' + h', r');
      HostSuffixIsUnique(junk + w, h, w', h');
    }
  }

  /** A string ends in at most one host: the last and third-last characters tell them apart. */
  lemma HostSuffixIsUnique(a: string, h: string, b: string, h': string)
    requires h in Hosts && h' in Hosts && a + h == b + h'
    ensures h == h' && a == b
  {
    var n := a + h;
    assert n[|n| - 1] == h[|h| - 1] == h'[|h'| - 1];
    assert n[|n| - 3] == h[|h| - 3] == h'[|h'| - 3];
    assert a == n[..|a|] == b;
  }

  /** Words or a bare colon before a scheme-less link are refused. */
  lemma TextBeforeHostExamples()
    ensures !IsDirectLink("hello youtube.com/x")
    ensures !IsDirectLink("watch youtu.be/x")
    ensures !IsDirectLink("https:youtube.com/x")
  {
    TextBeforeHostIsNotDirectLink("hello ", "", "youtube.com", "x");
    assert "hello " + "" + "youtube.com" + "/" + "x" == "hello youtube.com/x";
    TextBeforeHostIsNotDirectLink("watch ", "", "youtu.be", "x");
    assert "watch " + "" + "youtu.be" + "/" + "x" == "watch youtu.be/x";
    TextBeforeHostIsNotDirectLink("https:", "", "youtube.com", "x");
    assert "https:" + "" + "youtube.com" + "/" + "x" == "https:youtube.com/x";
  }

  /** The URL index.js:76 builds from the `videoId` of the first search hit. */
  function WatchUrl(videoId: string): string {
    "https://www.youtube.com/watch?v=" + videoId
  }

  /** The built watch URL passes the classifier exactly when the video id has no line terminator. */
  lemma WatchUrlIsDirectLink(videoId: string)
    ensures IsDirectLink(WatchUrl(videoId)) <==> forall i :: 0 <= i < |videoId| ==> !IsLineTerminator(videoId[i])
  {
    var x := "watch?v=" + videoId;
    assert WatchUrl(videoId) == "https://" + "www." + "youtube.com" + "/" + x;
    DirectLinkForm("https://", "www.", "youtube.com", x);
    assert forall i :: 0 <= i < |videoId| ==> x[8 + i] == videoId[i];
  }

  /** A full watch URL is played directly. */
  lemma WatchLinkExample()
    ensures IsDirectLink("https://www.youtube.com/watch?v=abc123")
  {
    WatchUrlIsDirectLink("abc123");
    WatchUrlSpelledOut();
  }

  lemma WatchUrlSpelledOut()
    ensures WatchUrl("abc123") == "https://www.youtube.com/watch?v=abc123"
  {
  }

  /** The optional dot in `youtu\.?be` lets the bare word "youtube" through as a host. */
  lemma BareYoutubeExample()
    ensures IsDirectLink("youtube/x")
  {
    DirectLinkForm("", "", "youtube", "x");
    assert "" + "" + "youtube" + "/" + "x" == "youtube/x";
  }

  /** A mobile link is searched for rather than played. */
  lemma MobileLinkExample()
    ensures !IsDirectLink("m.youtube.com/watch")
  {
    SubdomainIsNotDirectLink("", "m", "youtube.com", "watch");
    assert "" + "m" + "." + "youtube.com" + "/" + "watch" == "m.youtube.com/watch";
  }
}
