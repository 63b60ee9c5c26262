/** Choosing the http.<url>.<key> entry for a URL (config/url_config.go). */
module UrlConfig {
  import opened Options

  /** A parsed URL. An absent port is the empty string. */
  datatype Url = Url(scheme: string, user: Option<string>, hostname: string, port: string, path: string)

  /** Each configuration key, with the URL in it when the key has the wanted form
      and the URL parses. */
  type Settings = map<string, Option<Url>>

  datatype Score = Score(host: nat, path: nat, user: nat)

  // ---------------------------------------------------------------- splitting

  function SplitOn(s: string, c: char): (r: seq<string>)
    ensures r != [] && forall i :: 0 <= i < |r| ==> c !in r[i]
  {
    if s == [] then [""]
    else
      var rest := SplitOn(s[1..], c);
      if s[0] == c then [""] + rest else [[s[0]] + rest[0]] + rest[1..]
  }

  function JoinWith(parts: seq<string>, c: char): string {
    if parts == [] then ""
    else if |parts| == 1 then parts[0]
    else parts[0] + [c] + JoinWith(parts[1..], c)
  }

  lemma {:induction false} SplitThenJoin(s: string, c: char)
    ensures JoinWith(SplitOn(s, c), c) == s
  {
    if s != [] {
      var rest := SplitOn(s[1..], c);
      SplitThenJoin(s[1..], c);
      if s[0] == c {
        assert ([""] + rest)[1..] == rest;
        assert "" + [c] + JoinWith(rest, c) == s;
      } else {
        var r := SplitOn(s, c);
        assert r[1..] == rest[1..] && s == [s[0]] + s[1..];
        if |rest| > 1 {
          assert r[0] + [c] + JoinWith(rest[1..], c) == [s[0]] + (rest[0] + [c] + JoinWith(rest[1..], c));
        }
      }
    }
  }

  /** strings.FieldsFunc: the non-empty pieces. */
  function NonEmpty(parts: seq<string>): (r: seq<string>)
    ensures forall i :: 0 <= i < |r| ==> r[i] != "" && r[i] in parts
  {
    if parts == [] then []
    else if parts[0] == "" then NonEmpty(parts[1..])
    else [parts[0]] + NonEmpty(parts[1..])
  }

  function PathElements(path: string): seq<string> { NonEmpty(SplitOn(path, '/')) }

  // ---------------------------------------------------------------- hosts

  predicate HostsMatch(search: seq<string>, config: seq<string>) {
    |search| == |config| && forall i :: 0 <= i < |search| ==> config[i] == "*" || config[i] == search[i]
  }

  function Wildcards(config: seq<string>): (n: nat)
    ensures n <= |config|
  {
    if config == [] then 0
    else (if config[|config| - 1] == "*" then 1 else 0) + Wildcards(config[..|config| - 1])
  }

  /** compareHosts: positive exactly for a match, less for each wildcard used. */
  method CompareHosts(searchHostname: string, configHostname: string) returns (score: nat)
    ensures score == HostScore(searchHostname, configHostname)
  {
    var searchHost, configHost := SplitOn(searchHostname, '.'), SplitOn(configHostname, '.');
    if |searchHost| != |configHost| {
      return 0;
    }
    score := |searchHost| + 1;
    for i := 0 to |searchHost|
      invariant forall j :: 0 <= j < i ==> configHost[j] == "*" || configHost[j] == searchHost[j]
      invariant score == |searchHost| + 1 - Wildcards(configHost[..i])
    {
      assert configHost[..i + 1][..i] == configHost[..i];
      if configHost[i] == "*" {
        score := score - 1;
        continue;
      }
      if searchHost[i] != configHost[i] {
        return 0;
      }
    }
    assert configHost[..|configHost|] == configHost;
  }

  function HostScore(search: string, config: string): (score: nat)
    ensures score > 0 <==> HostsMatch(SplitOn(search, '.'), SplitOn(config, '.'))
  {
    var s, c := SplitOn(search, '.'), SplitOn(config, '.');
    if HostsMatch(s, c) then |s| + 1 - Wildcards(c) else 0
  }

  // ---------------------------------------------------------------- paths

  const GIT_EXT := ".git"

  /** isDefaultLFSUrl for the element at position i. */
  predicate HasLfsSuffix(search: seq<string>, i: nat)
    requires i < |search|
  {
    && |search[i]| >= 5
    && search[i][|search[i]| - 4..] == GIT_EXT
    && i + 2 < |search|
    && search[i + 1] == "info"
    && search[i + 2] == "lfs"
  }

  /** The element matches once `.git` is stripped from the searched one. */
  predicate MatchesStripped(search: seq<string>, config: seq<string>, i: nat)
    requires i < |config| <= |search|
  {
    config[i] != search[i] && HasLfsSuffix(search, i) && search[i] == config[i] + GIT_EXT
  }

  predicate PathsMatch(search: seq<string>, config: seq<string>) {
    && |config| <= |search|
    && forall i :: 0 <= i < |config| ==> config[i] == search[i] || MatchesStripped(search, config, i)
  }

  function Stripped(search: seq<string>, config: seq<string>, n: nat): (k: nat)
    requires n <= |config| <= |search|
    ensures k <= n
  {
    if n == 0 then 0
    else (if MatchesStripped(search, config, n - 1) then 1 else 0) + Stripped(search, config, n - 1)
  }

  function PathScore(search: seq<string>, config: seq<string>): (score: nat)
    ensures score > 0 <==> PathsMatch(search, config)
  {
    if PathsMatch(search, config) then 1 + 2 * |config| - Stripped(search, config, |config|) else 0
  }

  function DropGitExt(element: string): string { if |element| < 4 then element else element[0..|element| - 4] }

  lemma DroppingMatches(search: seq<string>, config: seq<string>, i: nat)
    requires i < |config| <= |search| && config[i] != search[i]
    ensures MatchesStripped(search, config, i) <==> HasLfsSuffix(search, i) && DropGitExt(search[i]) == config[i]
  {
    var whole, part := search[i], config[i];
    assert |GIT_EXT| == 4;
    if HasLfsSuffix(search, i) {
      assert whole == DropGitExt(whole) + GIT_EXT;
      if whole == part + GIT_EXT {
        assert (part + GIT_EXT)[0..|part|] == part;
      }
    }
  }

  /** comparePaths. */
  method ComparePaths(rawSearchPath: string, rawConfigPath: string) returns (score: nat)
    ensures score == PathScore(PathElements(rawSearchPath), PathElements(rawConfigPath))
  {
    hide PathElements, HasLfsSuffix, MatchesStripped, DropGitExt;
    var search, config := PathElements(rawSearchPath), PathElements(rawConfigPath);
    if |search| < |config| {
      return 0;
    }
    score := 1;
    for i := 0 to |config|
      invariant forall j :: 0 <= j < i ==> config[j] == search[j] || MatchesStripped(search, config, j)
      invariant score == 1 + 2 * i - Stripped(search, config, i)
    {
      if config[i] == search[i] {
        NotStripped(search, config, i);
        score := score + 2;
        continue;
      }
      DroppingMatches(search, config, i);
      if HasLfsSuffix(search, i) && DropGitExt(search[i]) == config[i] {
        score := score + 1;
        continue;
      }
      return 0;
    }
  }

  lemma NotStripped(search: seq<string>, config: seq<string>, i: nat)
    requires i < |config| <= |search| && config[i] == search[i]
    ensures !MatchesStripped(search, config, i)
  {
  }

  /** A longer path can lose: three elements matched without `.git` outweigh one
      more element. */
  lemma LongerPathCanLose()
    ensures var search := ["a.git", "info", "lfs", "b.git", "info", "lfs", "c.git", "info", "lfs"];
            var longer := ["a", "info", "lfs", "b", "info", "lfs", "c"];
            var shorter := ["a.git", "info", "lfs", "b.git", "info", "lfs"];
            && PathsMatch(search, longer) && PathsMatch(search, shorter)
            && PathScore(search, longer) < PathScore(search, shorter)
  {
    var search := ["a.git", "info", "lfs", "b.git", "info", "lfs", "c.git", "info", "lfs"];
    var longer := ["a", "info", "lfs", "b", "info", "lfs", "c"];
    var shorter := ["a.git", "info", "lfs", "b.git", "info", "lfs"];
    assert "a" + GIT_EXT == "a.git" && "b" + GIT_EXT == "b.git" && "c" + GIT_EXT == "c.git";
    assert MatchesStripped(search, longer, 0) && MatchesStripped(search, longer, 3);
    assert MatchesStripped(search, longer, 6);
    NoneStripped(search, shorter, 6);
    assert Stripped(search, longer, 7) == 3;
  }

  lemma {:induction false} NoneStripped(search: seq<string>, config: seq<string>, n: nat)
    requires n <= |config| <= |search| && forall i :: 0 <= i < n ==> config[i] == search[i]
    ensures Stripped(search, config, n) == 0
  {
    if n > 0 {
      NoneStripped(search, config, n - 1);
    }
  }

  // ---------------------------------------------------------------- the best key

  function PortOf(u: Url): string {
    if u.port != "" then u.port
    else if u.scheme == "http" then "80"
    else if u.scheme == "https" then "443"
    else if u.scheme == "ssh" then "22"
    else ""
  }

  /** A key matches a URL by scheme, host, port, path and, if it names one, user. */
  predicate Matches(search: Url, u: Url) {
    && search.scheme == u.scheme
    && HostScore(search.hostname, u.hostname) > 0
    && PortOf(search) == PortOf(u)
    && PathScore(PathElements(search.path), PathElements(u.path)) > 0
    && (u.user.Some? ==> search.user == u.user)
  }

  function ScoreOf(search: Url, u: Url): Score {
    Score(HostScore(search.hostname, u.hostname),
          PathScore(PathElements(search.path), PathElements(u.path)),
          if u.user.Some? then 1 else 0)
  }

  predicate Greater(a: Score, b: Score) {
    a.host > b.host || (a.host == b.host && (a.path > b.path || (a.path == b.path && a.user > b.user)))
  }

  /** The weight of a configured path: two for each element, one for each that matches
      only without `.git`. */
  function Weight(search: string, path: string): int
    requires PathsMatch(PathElements(search), PathElements(path))
  {
    var s, p := PathElements(search), PathElements(path);
    2 * |p| - Stripped(s, p, |p|)
  }

  function WildcardsIn(hostname: string): nat { Wildcards(SplitOn(hostname, '.')) }

  /** Which of two matching keys ranks higher: fewer wildcards, then the heavier path,
      then a user name. With as many wildcards a longer path ranks higher if at most one
      of its elements matches only without `.git`. */
  lemma {:induction false} RanksHigherIff(search: Url, u: Url, v: Url)
    requires Matches(search, u) && Matches(search, v)
    ensures Greater(ScoreOf(search, u), ScoreOf(search, v))
            <==> WildcardsIn(u.hostname) < WildcardsIn(v.hostname)
                 || (WildcardsIn(u.hostname) == WildcardsIn(v.hostname)
                     && (Weight(search.path, u.path) > Weight(search.path, v.path)
                         || (Weight(search.path, u.path) == Weight(search.path, v.path)
                             && u.user.Some? && v.user.None?)))
    ensures var (s, p, q) := (PathElements(search.path), PathElements(u.path), PathElements(v.path));
            WildcardsIn(u.hostname) == WildcardsIn(v.hostname) && |p| > |q| && Stripped(s, p, |p|) <= 1 ==>
              Greater(ScoreOf(search, u), ScoreOf(search, v))
  {
    hide SplitOn, PathElements, Wildcards, Stripped, HostsMatch, PortOf;
  }

  predicate Candidate(search: Url, config: Settings, k: string) {
    k in config && config[k].Some? && Matches(search, config[k].value)
  }

  function KeyScore(search: Url, config: Settings, k: string): Score
    requires Candidate(search, config, k)
  {
    ScoreOf(search, config[k].value)
  }

  /** No matching key among the given ones has a greater score. */
  ghost predicate BestAmong(search: Url, config: Settings, keys: seq<string>, k: string) {
    && k in keys && Candidate(search, config, k)
    && forall l :: l in keys && Candidate(search, config, l) ==>
         !Greater(KeyScore(search, config, l), KeyScore(search, config, k))
  }

  ghost predicate FirstAt(search: Url, config: Settings, keys: seq<string>, k: string, i: int) {
    0 <= i < |keys| && keys[i] == k && forall j :: 0 <= j < i ==> !BestAmong(search, config, keys, keys[j])
  }

  /** The best match after looking at some keys: none, or the first of the best. */
  ghost predicate FirstBest(search: Url, config: Settings, keys: seq<string>, best: Option<string>) {
    match best
    case None => forall l :: l in keys ==> !Candidate(search, config, l)
    case Some(k) =>
      && BestAmong(search, config, keys, k)
      && exists i :: FirstAt(search, config, keys, k, i)
  }

  /** Some order in which Go may walk the configuration. */
  ghost predicate Enumerates(order: seq<string>, config: Settings) {
    && (forall k :: k in order <==> k in config)
    && forall i, j :: 0 <= i < j < |order| ==> order[i] != order[j]
  }

  lemma NotACandidate(search: Url, config: Settings, keys: seq<string>, k: string, best: Option<string>)
    requires FirstBest(search, config, keys, best) && !Candidate(search, config, k)
    ensures FirstBest(search, config, keys + [k], best)
  {
    var now := keys + [k];
    if best.Some? {
      var i :| FirstAt(search, config, keys, best.value, i);
      assert now[i] == best.value;
      assert forall j :: 0 <= j < i ==> now[j] == keys[j] && !BestAmong(search, config, now, now[j]);
      assert FirstAt(search, config, now, best.value, i);
    }
  }

  lemma NotBetter(search: Url, config: Settings, keys: seq<string>, k: string, best: string)
    requires FirstBest(search, config, keys, Some(best)) && Candidate(search, config, k)
    requires !Greater(KeyScore(search, config, k), KeyScore(search, config, best))
    ensures FirstBest(search, config, keys + [k], Some(best))
  {
    hide Candidate, KeyScore;
    var now := keys + [k];
    var i :| FirstAt(search, config, keys, best, i);
    assert now[i] == best;
    forall j | 0 <= j < i
      ensures !BestAmong(search, config, now, now[j])
    {
      assert now[j] == keys[j] && keys[j] in keys;
    }
    assert FirstAt(search, config, now, best, i);
  }

  lemma Better(search: Url, config: Settings, keys: seq<string>, k: string, best: Option<string>)
    requires FirstBest(search, config, keys, best) && Candidate(search, config, k)
    requires best.Some? ==> Greater(KeyScore(search, config, k), KeyScore(search, config, best.value))
    ensures FirstBest(search, config, keys + [k], Some(k))
  {
    hide Candidate, KeyScore;
    var now := keys + [k];
    assert now[|keys|] == k;
    forall l | l in keys && Candidate(search, config, l)
      ensures Greater(KeyScore(search, config, k), KeyScore(search, config, l))
    {
    }
    forall j | 0 <= j < |keys|
      ensures !BestAmong(search, config, now, now[j])
    {
      assert now[j] == keys[j] && keys[j] in keys && k in now;
    }
    assert FirstAt(search, config, now, k, |keys|);
  }

  /** getAll's loop: of the matching keys, one with the greatest (host, path, user)
      score, and the first such key in the order the configuration is walked. */
  method ChooseKey(search: Url, config: Settings, order: seq<string>) returns (best: Option<string>)
    requires Enumerates(order, config)
    ensures FirstBest(search, config, order, best)
  {
    hide FirstBest, HostScore, PathScore, PathElements, PortOf;
    best := None;
    var score := Score(0, 0, 0);
    NoKeys(search, config);
    for i := 0 to |order|
      invariant FirstBest(search, config, order[..i], best)
      invariant score == if best.None? then Score(0, 0, 0) else BestScore(search, config, best)
      invariant best.Some? ==> Candidate(search, config, best.value)
    {
      var k := order[i];
      assert k in order;
      assert order[..i + 1] == order[..i] + [k];
      if config[k].None? {
        NotACandidate(search, config, order[..i], k, best);
        continue;
      }
      var u := config[k].value;
      if search.scheme != u.scheme {
        NotACandidate(search, config, order[..i], k, best);
        continue;
      }
      var host := CompareHosts(search.hostname, u.hostname);
      if host == 0 {
        NotACandidate(search, config, order[..i], k, best);
        continue;
      }
      if host < score.host {
        Loses(search, config, order[..i], k, best);
        continue;
      }
      if PortOf(search) != PortOf(u) {
        NotACandidate(search, config, order[..i], k, best);
        continue;
      }
      var path := ComparePaths(search.path, u.path);
      if path == 0 || (u.user.Some? && search.user != u.user) {
        NotACandidate(search, config, order[..i], k, best);
        continue;
      }
      var user := if u.user.Some? then 1 else 0;
      if host > score.host || path > score.path || (path == score.path && user > score.user) {
        Better(search, config, order[..i], k, best);
        best, score := Some(k), Score(host, path, user);
      } else {
        Loses(search, config, order[..i], k, best);
      }
    }
    assert order[..|order|] == order;
  }

  function BestScore(search: Url, config: Settings, best: Option<string>): Score {
    if best.Some? && Candidate(search, config, best.value) then KeyScore(search, config, best.value) else Score(0, 0, 0)
  }

  lemma NoKeys(search: Url, config: Settings)
    ensures FirstBest(search, config, [], None)
  {
  }

  lemma Loses(search: Url, config: Settings, keys: seq<string>, k: string, best: Option<string>)
    requires FirstBest(search, config, keys, best) && best.Some?
    requires Candidate(search, config, k) ==>
               Candidate(search, config, best.value)
               && !Greater(KeyScore(search, config, k), KeyScore(search, config, best.value))
    ensures FirstBest(search, config, keys + [k], best)
  {
    hide FirstBest;
    if Candidate(search, config, k) {
      NotBetter(search, config, keys, k, best.value);
    } else {
      NotACandidate(search, config, keys, k, best);
    }
  }

  // ---------------------------------------------------------------- dependence on the order

  function Without(s: seq<string>, k: string): (r: seq<string>)
    ensures forall x :: x in r <==> x in s && x != k
    ensures (forall i, j :: 0 <= i < j < |s| ==> s[i] != s[j]) ==> forall i, j :: 0 <= i < j < |r| ==> r[i] != r[j]
  {
    if s == [] then []
    else
      var rest := Without(s[1..], k);
      assert forall i :: 0 <= i < |rest| ==> rest[i] in s[1..];
      if s[0] == k then rest else [s[0]] + rest
  }

  /** When several keys share the greatest score, each of them is the answer of the
      walk that starts with it: the choice depends on the order. */
  lemma {:induction false} TieDependsOnTheOrder(search: Url, config: Settings, order: seq<string>, k: string)
    requires Enumerates(order, config) && BestAmong(search, config, order, k)
    ensures Enumerates([k] + Without(order, k), config)
    ensures FirstBest(search, config, [k] + Without(order, k), Some(k))
  {
    var walk := [k] + Without(order, k);
    assert forall x :: x in walk <==> x in order;
    assert FirstAt(search, config, walk, k, 0);
  }

  ghost predicate Answers(search: Url, config: Settings, o: seq<string>, a: Option<string>) {
    Enumerates(o, config) && FirstBest(search, config, o, a)
  }

  /** The configuration gives one answer in whatever order it is walked. */
  ghost predicate OneAnswer(search: Url, config: Settings) {
    forall o, o', a, b :: Answers(search, config, o, a) && Answers(search, config, o', b) ==> a == b
  }

  /** The answer depends on the order exactly when two keys share the greatest score. */
  lemma AnswerIsOneIff(search: Url, config: Settings, order: seq<string>)
    requires Enumerates(order, config)
    ensures OneAnswer(search, config)
            <==> forall k, l :: BestAmong(search, config, order, k) && BestAmong(search, config, order, l) ==> k == l
  {
    hide FirstBest, BestAmong, Enumerates;
    if forall k, l :: BestAmong(search, config, order, k) && BestAmong(search, config, order, l) ==> k == l {
      forall o, o', a, b | Answers(search, config, o, a) && Answers(search, config, o', b)
        ensures a == b
      {
        SameKeys(search, config, order, o, a);
        SameKeys(search, config, order, o', b);
      }
    } else {
      var k, l :| BestAmong(search, config, order, k) && BestAmong(search, config, order, l) && k != l;
      TieDependsOnTheOrder(search, config, order, k);
      TieDependsOnTheOrder(search, config, order, l);
      assert Answers(search, config, [k] + Without(order, k), Some(k));
      assert Answers(search, config, [l] + Without(order, l), Some(l));
    }
  }

  lemma SameKeys(search: Url, config: Settings, order: seq<string>, o: seq<string>, a: Option<string>)
    requires Enumerates(order, config) && Enumerates(o, config) && FirstBest(search, config, o, a)
    ensures a.Some? ==> BestAmong(search, config, order, a.value)
    ensures a.None? ==> forall l :: !BestAmong(search, config, order, l)
    ensures a.Some? ==> exists l :: l in order && Candidate(search, config, l)
    ensures a.None? ==> forall l :: l in order ==> !Candidate(search, config, l)
  {
    hide Candidate, KeyScore, Greater;
    assert forall x :: x in o <==> x in order;
  }

  /** Writing the default port out in the URL changes no answer. */
  lemma DefaultPortChangesNothing(search: Url, config: Settings, order: seq<string>, best: Option<string>)
    ensures FirstBest(search.(port := PortOf(search)), config, order, best) <==> FirstBest(search, config, order, best)
  {
    var written := search.(port := PortOf(search));
    assert PortOf(written) == PortOf(search);
    hide HostScore, PathScore, PathElements, PortOf, Greater;
    forall k
      ensures Candidate(written, config, k) <==> Candidate(search, config, k)
      ensures Candidate(search, config, k) ==> KeyScore(written, config, k) == KeyScore(search, config, k)
    {
    }
    forall k
      ensures BestAmong(written, config, order, k) <==> BestAmong(search, config, order, k)
    {
    }
    forall k, i
      ensures FirstAt(written, config, order, k, i) <==> FirstAt(search, config, order, k, i)
    {
    }
  }
}
