/** Route classification of `navigation.rs`: which page the webview shows, what the
    poller does for it, and the strings it derives from the path. */
module Routes {
  import opened Wrappers
  import opened Text

  const LiveApi: string := "https://game-server.geoguessr.com/api"
  const OfflineApi: string := "https://www.geoguessr.com/api/v3/games"

  /** The multiplayer route prefixes, in source order. */
  const MultiPlayerGames: seq<string> := ["/live-challenge", "/duels", "/battle-royale", "/bullseye"]

  /** The menu table: route prefix, presence label, and whether the path is shown. */
  const MenuTable: seq<(string, string, bool)> := [
    ("/", "In Menu", true),
    ("/me", "Profile", true),
    ("/maps", "Browsing maps", true),
    ("/shop", "Shopping!", false),
    ("/singleplayer", "Campaign", false),
    ("/multiplayer", "Looking for game...", true),
    ("/party", "In Lobby", false),
    ("/quiz", "Quiz time!", false),
    ("/competitive-streak", "City streak", false)
  ]

  // ---------------------------------------------------------------- classification

  /** `prefixes.iter().any(|p| path.starts_with(p))`. */
  function AnyPrefix(prefixes: seq<string>, path: string): (r: bool)
    ensures r <==> exists i :: 0 <= i < |prefixes| && StartsWith(path, prefixes[i])
    decreases |prefixes|
  {
    if |prefixes| == 0 then false
    else StartsWith(path, prefixes[0]) || AnyPrefix(prefixes[1..], path)
  }

  predicate IsLiveGame(path: string) {
    AnyPrefix(MultiPlayerGames, path)
  }

  predicate IsOfflineGame(path: string) {
    StartsWith(path, "/game")
  }

  /** The two game classes never overlap, so the order in which they are tested does not
      change the result. */
  lemma LiveAndOfflineDisjoint(path: string)
    ensures !(IsLiveGame(path) && IsOfflineGame(path))
  {
    if IsOfflineGame(path) && |path| >= 2 {
      assert path[1] == "/game"[1] == 'g';
      forall i | 0 <= i < |MultiPlayerGames| ensures !StartsWith(path, MultiPlayerGames[i]) {
        assert MultiPlayerGames[i][1] != 'g';
      }
    }
  }

  /** `iter().rev().find(..)` over the first `n` rows: the last row whose prefix matches. */
  function LastMatch(table: seq<(string, string, bool)>, path: string, n: nat): (r: Option<nat>)
    requires n <= |table|
    ensures r.Some? ==> r.value < n
    decreases n
  {
    if n == 0 then None
    else if StartsWith(path, table[n - 1].0) then Some(n - 1)
    else LastMatch(table, path, n - 1)
  }

  /** The row found matches and no later row does; when none is found, no row matches. */
  lemma {:induction false} LastMatchSpec(table: seq<(string, string, bool)>, path: string, n: nat)
    requires n <= |table|
    ensures var r := LastMatch(table, path, n);
      && (r.Some? ==> StartsWith(path, table[r.value].0))
      && (r.Some? ==> forall j :: r.value < j < n ==> !StartsWith(path, table[j].0))
      && (r.None? ==> forall j :: 0 <= j < n ==> !StartsWith(path, table[j].0))
    decreases n
  {
    if n > 0 && !StartsWith(path, table[n - 1].0) {
      LastMatchSpec(table, path, n - 1);
    }
  }

  /** Conversely, a matching row with no matching row after it is the one found. */
  lemma {:induction false} LastMatchIs(table: seq<(string, string, bool)>, path: string, n: nat, k: nat)
    requires k < n <= |table| && StartsWith(path, table[k].0)
    requires forall j :: k < j < n ==> !StartsWith(path, table[j].0)
    ensures LastMatch(table, path, n) == Some(k)
    decreases n
  {
    if k < n - 1 {
      assert !StartsWith(path, table[n - 1].0);
      LastMatchIs(table, path, n - 1, k);
    }
  }

  /** The menu label of a path and whether the path is shown beside it. */
  function MenuLookup(path: string): Option<(string, bool)> {
    var row := LastMatch(MenuTable, path, |MenuTable|);
    if row.Some? then Some((MenuTable[row.value].1, MenuTable[row.value].2)) else None
  }

  /** Every path that starts with `/` gets a label, because `/` is in the table. */
  lemma SlashPathHasLabel(path: string)
    requires StartsWith(path, "/")
    ensures MenuLookup(path).Some?
  {
    LastMatchSpec(MenuTable, path, |MenuTable|);
    assert MenuTable[0].0 == "/";
  }

  /** For this table the last match is also the longest: no two prefixes other than `/`
      are prefixes of one another, so the most specific row wins. */
  lemma MenuLookupIsLongest(path: string, j: nat)
    requires j < |MenuTable| && StartsWith(path, MenuTable[j].0)
    ensures var row := LastMatch(MenuTable, path, |MenuTable|);
      row.Some? && |MenuTable[j].0| <= |MenuTable[row.value].0|
  {
    var t := MenuTable;
    LastMatchSpec(t, path, |t|);
    var i := LastMatch(t, path, |t|).value;
    if j != i && j != 0 {
      NoNestedPrefixes(i, j);
      PrefixOfPrefix(path, t[i].0, t[j].0);
    }
  }

  /** Apart from `/`, no row prefix begins another one. */
  lemma NoNestedPrefixes(a: nat, b: nat)
    requires 1 <= a < |MenuTable| && 1 <= b < |MenuTable| && a != b
    ensures !StartsWith(MenuTable[b].0, MenuTable[a].0)
  {
    var t := MenuTable;
    assert |t[a].0| >= 3 && |t[b].0| >= 3;
    assert t[a].0[1] != t[b].0[1] || t[a].0[2] != t[b].0[2];
  }

  lemma MapsExample()
    ensures MenuLookup("/maps/42") == Some(("Browsing maps", true))
  {
    var t := MenuTable;
    var path := "/maps/42";
    assert StartsWith(path, t[2].0);
    forall j | 2 < j < |t| ensures !StartsWith(path, t[j].0) {
      assert |t[j].0| >= 3 && (t[j].0[1] != path[1] || t[j].0[2] != path[2]);
    }
    LastMatchIs(t, path, |t|, 2);
  }

  // ---------------------------------------------------------------- mode name

  /** `f.remove(0).to_uppercase() + f`: the part with its first character upper-cased;
      an empty part makes `remove(0)` panic. */
  function Capitalize(part: string): Option<string> {
    if |part| == 0 then None else Some([ToUpper(part[0])] + part[1..])
  }

  function CapitalizeAll(parts: seq<string>): (r: Option<seq<string>>)
    ensures r.Some? ==> |r.value| == |parts|
    decreases |parts|
  {
    if |parts| == 0 then Some([])
    else
      var first :- Capitalize(parts[0]);
      var rest :- CapitalizeAll(parts[1..]);
      Some([first] + rest)
  }

  /** The kebab-case route segment in Title Case: split on `-`, capitalize, join with spaces. */
  function TitleCase(segment: string): Option<string> {
    var words :- CapitalizeAll(Split(segment, '-'));
    if |words| == 0 then None else Some(Join(words, ' '))
  }

  /** The display mode of a live game: path segment 1 in Title Case (`None` where the
      source panics: no segment 1, or an empty part). */
  function ModeName(path: string): Option<string> {
    var segments := Split(path, '/');
    if |segments| < 2 then None else TitleCase(segments[1])
  }

  /** Back from Title Case to kebab case (the inverse of `TitleCase` on lower-case routes). */
  function Kebab(s: string): (r: string)
    ensures |r| == |s|
  {
    seq(|s|, i requires 0 <= i < |s| => if s[i] == ' ' then '-' else ToLower(s[i]))
  }

  predicate KebabSegment(segment: string) {
    forall i :: 0 <= i < |segment| ==> IsLowerLetter(segment[i]) || segment[i] == '-'
  }

  lemma KebabAppend(a: string, b: string)
    ensures Kebab(a + b) == Kebab(a) + Kebab(b)
  {
  }

  lemma {:induction false} KebabTitleWords(parts: seq<string>)
    requires |parts| >= 1
    requires forall k, i :: 0 <= k < |parts| && 0 <= i < |parts[k]| ==> IsLowerLetter(parts[k][i])
    requires forall k :: 0 <= k < |parts| ==> |parts[k]| > 0
    ensures CapitalizeAll(parts).Some?
    ensures Kebab(Join(CapitalizeAll(parts).value, ' ')) == Join(parts, '-')
    decreases |parts|
  {
    var p := parts[0];
    var c := [ToUpper(p[0])] + p[1..];
    assert Kebab(c) == p;
    if |parts| == 1 {
      assert CapitalizeAll(parts[1..]) == Some([]);
      assert CapitalizeAll(parts).value == [c];
    } else {
      KebabTitleWords(parts[1..]);
      var rest := CapitalizeAll(parts[1..]).value;
      assert CapitalizeAll(parts).value == [c] + rest;
      assert ([c] + rest)[1..] == rest;
      calc {
        Kebab(Join([c] + rest, ' '));
        Kebab(c + [' '] + Join(rest, ' '));
        { KebabAppend(c + [' '], Join(rest, ' ')); KebabAppend(c, [' ']); }
        Kebab(c) + Kebab([' ']) + Kebab(Join(rest, ' '));
        p + ['-'] + Join(parts[1..], '-');
      }
    }
  }

  /** Title Case loses nothing on a lower-case kebab segment without empty parts:
      turning spaces back into dashes and lower-casing restores the segment. */
  lemma TitleCaseRoundTrip(segment: string)
    requires KebabSegment(segment)
    requires forall k :: 0 <= k < |Split(segment, '-')| ==> |Split(segment, '-')[k]| > 0
    ensures TitleCase(segment).Some? && Kebab(TitleCase(segment).value) == segment
  {
    var parts := Split(segment, '-');
    SplitParts(segment, '-');
    forall k, i | 0 <= k < |parts| && 0 <= i < |parts[k]| ensures IsLowerLetter(parts[k][i]) {
      assert parts[k][i] in segment && parts[k][i] != '-';
    }
    KebabTitleWords(parts);
    JoinSplit(segment, '-');
  }

  /** The mode name of `/<segment>/<rest>` is the Title Case of the segment. */
  lemma ModeNameOfSegment(segment: string, rest: string)
    requires '/' !in segment
    ensures |Split("/" + segment + "/" + rest, '/')| >= 2
    ensures Split("/" + segment + "/" + rest, '/')[1] == segment
    ensures ModeName("/" + segment + "/" + rest) == TitleCase(segment)
  {
    var path := "/" + segment + "/" + rest;
    assert path == "" + ['/'] + (segment + ['/'] + rest);
    SplitCons("", segment + ['/'] + rest, '/');
    SplitCons(segment, rest, '/');
  }

  lemma CapitalizeAllCons(part: string, parts: seq<string>)
    requires Capitalize(part).Some? && CapitalizeAll(parts).Some?
    ensures CapitalizeAll([part] + parts) == Some([Capitalize(part).value] + CapitalizeAll(parts).value)
  {
    assert ([part] + parts)[1..] == parts;
  }

  /** `/live-challenge/abc` is shown as the mode `Live Challenge`. */
  lemma ModeNameExample()
    ensures ModeName("/live-challenge/abc") == Some("Live Challenge")
  {
    var segment, rest := "live-challenge", "abc";
    assert "/live-challenge/abc" == "/" + segment + "/" + rest by {
      assert "/live-challenge/abc"[1..15] == segment;
    }
    ModeNameOfSegment(segment, rest);
    TitleCaseExample();
  }

  /** A two-part segment `a-b` becomes the two capitalized parts joined by a space. */
  lemma TitleCaseTwoParts(a: string, b: string)
    requires |a| > 0 && |b| > 0 && '-' !in a && '-' !in b
    ensures TitleCase(a + ['-'] + b) ==
      Some(([ToUpper(a[0])] + a[1..]) + [' '] + ([ToUpper(b[0])] + b[1..]))
  {
    var ca, cb := [ToUpper(a[0])] + a[1..], [ToUpper(b[0])] + b[1..];
    SplitCons(a, b, '-');
    SplitNoSep(b, '-');
    assert Split(a + ['-'] + b, '-') == [a, b];
    CapitalizeAllCons(b, []);
    assert [b] + [] == [b] && [cb] + [] == [cb];
    CapitalizeAllCons(a, [b]);
    assert [a] + [b] == [a, b] && [ca] + [cb] == [ca, cb];
    assert CapitalizeAll([a, b]) == Some([ca, cb]);
    assert [ca, cb][1..] == [cb];
    assert Join([ca, cb], ' ') == ca + [' '] + cb;
  }

  /** `live-challenge` in Title Case is `Live Challenge`. */
  lemma TitleCaseExample()
    ensures TitleCase("live-challenge") == Some("Live Challenge")
  {
    var a, b := "live", "challenge";
    assert "live-challenge" == a + ['-'] + b;
    TitleCaseTwoParts(a, b);
    assert ([ToUpper(a[0])] + a[1..]) + [' '] + ([ToUpper(b[0])] + b[1..]) == "Live Challenge";
  }

  // ---------------------------------------------------------------- urls

  /** The data endpoint of a live game: the path appended to the live API. */
  function LiveUrl(path: string): string {
    LiveApi + path
  }

  /** The data endpoint of an offline game: every `/game/` removed from the path, after
      the offline API and a slash. */
  function OfflineUrl(path: string): string {
    OfflineApi + "/" + ReplaceAll(path, "/game/", "")
  }

  /** For `/game/<token>` the endpoint is the offline API followed by `/<token>`. */
  lemma OfflineUrlOfGame(token: string)
    requires !Occurs(token, "/game/")
    ensures OfflineUrl("/game/" + token) == OfflineApi + "/" + token
  {
    var path := "/game/" + token;
    assert path[..|"/game/"|] == "/game/";
    assert path[|"/game/"|..] == token;
    ReplaceAbsent(token, "/game/", "");
    assert ReplaceAll(path, "/game/", "") == "" + token == token;
  }

  // ---------------------------------------------------------------- dispatch

  /** What one poller iteration does for a path: evaluate the live-game or offline-game
      fetch script, or set the menu presence; `Panic` where an `unwrap` fails. */
  datatype Action =
    | EvalLive(url: string, mode: string)
    | EvalOffline(url: string)
    | SetActivity(details: string, state: Option<string>)
    | Panic

  function Dispatch(path: string): (a: Action)
    ensures a.EvalLive? <==> IsLiveGame(path) && ModeName(path).Some?
    ensures a.EvalOffline? <==> IsOfflineGame(path) && !IsLiveGame(path)
    ensures a.SetActivity? <==> !IsLiveGame(path) && !IsOfflineGame(path) && MenuLookup(path).Some?
    ensures a.SetActivity? ==> (a.state.Some? <==> MenuLookup(path).value.1)
    ensures a.SetActivity? && a.state.Some? ==> a.state.value == path
    ensures a.EvalLive? ==> a.url == LiveUrl(path) && a.mode == ModeName(path).value
    ensures a.EvalOffline? ==> a.url == OfflineUrl(path)
    ensures a.SetActivity? ==> a.details == MenuLookup(path).value.0
  {
    if IsLiveGame(path) then
      var mode := ModeName(path);
      if mode.Some? then EvalLive(LiveUrl(path), mode.value) else Panic
    else if IsOfflineGame(path) then EvalOffline(OfflineUrl(path))
    else
      var entry := MenuLookup(path);
      if entry.Some? then SetActivity(entry.value.0, if entry.value.1 then Some(path) else None)
      else Panic
  }

  /** A non-game path that starts with `/` never panics: it gets its menu presence. */
  lemma MenuPathsDispatch(path: string)
    requires StartsWith(path, "/") && !IsLiveGame(path) && !IsOfflineGame(path)
    ensures Dispatch(path).SetActivity?
  {
    SlashPathHasLabel(path);
  }

  lemma MapsDispatchExample()
    ensures Dispatch("/maps/42") == SetActivity("Browsing maps", Some("/maps/42"))
  {
    MapsExample();
    var path := "/maps/42";
    assert !IsOfflineGame(path) by { assert path[1] != "/game"[1]; }
    assert !IsLiveGame(path) by {
      forall i | 0 <= i < |MultiPlayerGames| ensures !StartsWith(path, MultiPlayerGames[i]) {
        assert MultiPlayerGames[i][1] != 'm';
      }
    }
  }
}
