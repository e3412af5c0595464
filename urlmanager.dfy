/**
 * The persisted list of URL paths to query (lib/url-manager.js): path
 * normalisation, and adding, removing, clearing and replacing entries.
 *
 * The configuration file is modelled by the class `UrlConfig`, whose fields
 * are the file's `urls` and `description`; each operation of the source loads
 * the file, changes it and saves it back, which here is one update of the
 * fields. Every operation's outcome is specified by a function on the old list
 * (`AddUrlOn`, `RemoveUrlOn`, `UpdateUrlsOn`) and the methods are tied to them.
 */
module UrlManager {
  import opened Wrappers
  import opened JsStrings
  import opened Seqs
  import opened JsValues

  /** The installation directory that Git Bash on Windows puts in front of an argument that looks like a path. */
  const GitBashWindowsPrefix := "C:/Program Files/Git/"
  const GitBashPosixPrefix := "/c/Program Files/Git/"
  const DefaultDescription := "Lista de URLs para consultar en Google Analytics 4"

  // ----- normalizeUrl as written -----

  /** The index of the first line terminator at or after `i`, or `|s|`. */
  function LineEnd(s: string, i: nat): (r: nat)
    requires i <= |s|
    decreases |s| - i
    ensures i <= r <= |s|
    ensures forall k :: i <= k < r ==> !IsLineTerminator(s[k])
    ensures r < |s| ==> IsLineTerminator(s[r])
  {
    if i == |s| || IsLineTerminator(s[i]) then i else LineEnd(s, i + 1)
  }

  /** The start of the last `/Git` lying wholly before index `l`. */
  function LastGit(s: string, l: nat): (r: Option<nat>)
    requires l <= |s|
    ensures r.None? ==> forall j: nat :: j + 4 <= l ==> !OccursAt(s, "/Git", j)
    ensures r.Some? ==> r.value + 4 <= l && OccursAt(s, "/Git", r.value)
    ensures r.Some? ==> forall j: nat :: r.value < j && j + 4 <= l ==> !OccursAt(s, "/Git", j)
  {
    if l < 4 then None
    else if s[l - 4..l] == "/Git" then assert OccursAt(s, "/Git", l - 4); Some(l - 4)
    else LastGit(s, l - 1)
  }

  /**
   * `s.replace(/^.*\/Git/, '')`. The dot does not match a line terminator and
   * the star is greedy, so the match runs from the start of `s` to the end of
   * the last `/Git` on the first line; without one, `s` is unchanged.
   */
  function StripGitPrefix(s: string): (r: string)
    ensures |r| <= |s| && r == s[|s| - |r|..]
    ensures r != s ==> |r| + 4 <= |s| && OccursAt(s, "/Git", |s| - |r| - 4)
    ensures r != s ==> forall k :: 0 <= k < |s| - |r| ==> !IsLineTerminator(s[k])
    ensures r == s ==> forall j: nat :: j + 4 <= LineEnd(s, 0) ==> !OccursAt(s, "/Git", j)
  {
    match LastGit(s, LineEnd(s, 0))
    case None => s
    case Some(j) => s[j + 4..]
  }

  /** Starts and ends with `/`. */
  predicate SlashWrapped(s: string)
  {
    |s| > 0 && s[0] == '/' && s[|s| - 1] == '/'
  }

  lemma SlashWrappedIff(s: string)
    ensures SlashWrapped(s) <==> StartsWith(s, "/") && EndsWith(s, "/")
    ensures StartsWith(s, "/") <==> |s| > 0 && s[0] == '/'
    ensures EndsWith(s, "/") <==> |s| > 0 && s[|s| - 1] == '/'
  {
    if |s| > 0 {
      assert s[..1] == [s[0]];
      assert s[|s| - 1..] == [s[|s| - 1]];
    }
  }

  predicate HasGitBashPrefix(s: string)
  {
    Includes(s, GitBashWindowsPrefix) || Includes(s, GitBashPosixPrefix)
  }

  /** Makes sure a path starts and ends with `/`, adding nothing else. */
  function WrapInSlashes(u: string): (r: string)
    ensures SlashWrapped(r)
    ensures SlashWrapped(u) ==> r == u
    ensures r == u || r == "/" + u || r == u + "/" || r == "/" + u + "/"
  {
    SlashWrappedIff(u);
    var v := if StartsWith(u, "/") then u else "/" + u;
    SlashWrappedIff(v);
    if EndsWith(v, "/") then v else v + "/"
  }

  /**
   * `normalizeUrl` as the source writes it: drop a Git Bash installation
   * prefix, then make sure the path starts and ends with `/`.
   */
  function NormalizeUrlAsWritten(url: string): (r: string)
    ensures SlashWrapped(r)
    ensures !HasGitBashPrefix(url) ==> r == WrapInSlashes(url)
  {
    var u := if HasGitBashPrefix(url) then StripGitPrefix(url) else url;
    WrapInSlashes(u)
  }

  /** A path that merely lacks a leading `/` before the Git Bash prefix shows no prefix to the first test. */
  lemma NoPrefixBeforeSlashAdded()
    ensures !HasGitBashPrefix("c/Program Files/Git/")
  {
  }

  lemma WrapOfNoLeadingSlash()
    ensures WrapInSlashes("c/Program Files/Git/") == "/c/Program Files/Git/"
  {
    var u := "c/Program Files/Git/";
    var v := "/c/Program Files/Git/";
    SlashWrappedIff(u);
    SlashWrappedIff(v);
    assert !StartsWith(u, "/") by { assert u[0] != '/'; }
    assert "/" + u == v;
    assert EndsWith(v, "/") by { assert v[|v| - 1] == '/'; }
  }

  lemma PrefixAfterSlashAdded()
    ensures HasGitBashPrefix("/c/Program Files/Git/")
  {
    assert OccursAt("/c/Program Files/Git/", GitBashPosixPrefix, 0);
  }

  lemma StripOfPosixPrefix()
    ensures StripGitPrefix("/c/Program Files/Git/") == "/"
  {
    var y := "/c/Program Files/Git/";
    assert LineEnd(y, 0) == |y| by {
      assert forall k :: 0 <= k < |y| ==> !IsLineTerminator(y[k]);
    }
    assert y[17..21] != "/Git" by { assert y[17] != '/'; }
    assert y[16..20] == "/Git";
    assert LastGit(y, 21) == Some(16);
  }

  /**
   * The source's normalisation is not idempotent: a path that acquires the
   * Git Bash prefix only through the added leading `/` is stripped on the
   * next pass, so normalising an already normalised path changes it.
   */
  lemma NormalizeUrlAsWrittenNotIdempotent()
    ensures NormalizeUrlAsWritten("c/Program Files/Git/") == "/c/Program Files/Git/"
    ensures NormalizeUrlAsWritten("/c/Program Files/Git/") == "/"
    ensures NormalizeUrlAsWritten(NormalizeUrlAsWritten("c/Program Files/Git/")) != NormalizeUrlAsWritten("c/Program Files/Git/")
  {
    NoPrefixBeforeSlashAdded();
    WrapOfNoLeadingSlash();
    PrefixAfterSlashAdded();
    StripOfPosixPrefix();
    SlashWrappedIff("/");
  }

  // ----- normalizeUrl corrected -----

  /** On a slash-wrapped path, a pass of the source's normalisation either keeps it or shortens it. */
  lemma NormalizeUrlAsWrittenShrinks(y: string)
    requires SlashWrapped(y)
    ensures NormalizeUrlAsWritten(y) == y || |NormalizeUrlAsWritten(y)| < |y|
  {
    if HasGitBashPrefix(y) && StripGitPrefix(y) != y {
      assert |StripGitPrefix(y)| + 4 <= |y|;
    }
  }

  /** Repeats the source's normalisation until it no longer changes the path. */
  function Settle(y: string): (r: string)
    requires SlashWrapped(y)
    decreases |y|
    ensures SlashWrapped(r) && NormalizeUrlAsWritten(r) == r
    ensures |r| <= |y|
  {
    var n := NormalizeUrlAsWritten(y);
    if n == y then y
    else NormalizeUrlAsWrittenShrinks(y); Settle(n)
  }

  /**
   * `normalizeUrl` as evidently intended: a path that starts and ends with `/`
   * and carries no Git Bash installation prefix, reached by normalising until
   * nothing changes.
   */
  function NormalizeUrl(url: string): (r: string)
    ensures SlashWrapped(r)
    ensures NormalizeUrlAsWritten(r) == r
  {
    Settle(NormalizeUrlAsWritten(url))
  }

  /** Normalising twice gives what normalising once gives. */
  lemma NormalizeUrlIdempotent(url: string)
    ensures NormalizeUrl(NormalizeUrl(url)) == NormalizeUrl(url)
  {
  }

  /** Where the source's single pass already settles, the corrected normalisation agrees with it. */
  lemma NormalizeUrlAgrees(url: string)
    requires NormalizeUrlAsWritten(NormalizeUrlAsWritten(url)) == NormalizeUrlAsWritten(url)
    ensures NormalizeUrl(url) == NormalizeUrlAsWritten(url)
  {
  }

  /** In particular the two agree on every path whose single-pass result shows no Git Bash prefix. */
  lemma NormalizeUrlAgreesOnPlainPaths(url: string)
    requires !HasGitBashPrefix(NormalizeUrlAsWritten(url))
    ensures NormalizeUrl(url) == NormalizeUrlAsWritten(url)
  {
    NormalizeUrlAgrees(url);
  }

  /**
   * Which normalisation the list operations apply: `AsWritten` is the single
   * `normalizeUrl` call of the source, `Corrected` the normalisation settled
   * to a fixed point. The configuration and its routes use `AsWritten`.
   */
  datatype Normalization = AsWritten | Corrected

  function Normalize(mode: Normalization, url: string): (r: string)
    ensures SlashWrapped(r)
  {
    match mode
    case AsWritten => NormalizeUrlAsWritten(url)
    case Corrected => NormalizeUrl(url)
  }

  /** `urls.map(url => normalizeUrl(url))` */
  function NormalizeAll(mode: Normalization, xs: seq<string>): (r: seq<string>)
    ensures |r| == |xs|
    ensures forall i :: 0 <= i < |xs| ==> r[i] == Normalize(mode, xs[i])
  {
    seq(|xs|, i requires 0 <= i < |xs| => Normalize(mode, xs[i]))
  }

  // ----- operations on the list -----

  datatype AddResult =
    | Added(url: string, total: nat)
    | InvalidUrl
    | AlreadyPresent(url: string)

  datatype RemoveResult =
    | Removed(url: string, total: nat)
    | MissingArgument
    | NotFound(shown: string)
    /** `normalizeUrl` called on a value that is not a string throws a TypeError. */
    | RemoveTypeError

  datatype UpdateResult =
    | Updated(total: nat)
    | NotAnArray
    | DuplicateUrls
    /** An element that is not a string makes `normalizeUrl` throw a TypeError before anything is saved. */
    | UpdateTypeError

  /** An operation's reply together with the list it leaves saved. */
  datatype Outcome<R> = Outcome(result: R, urls: seq<string>)

  /** A string with at least one character that is not white space. */
  predicate NonBlankString(v: Value)
  {
    v.Str? && exists i :: 0 <= i < |v.s| && !IsSpace(v.s[i])
  }

  /** `addUrl(url)` on the saved list `urls`. */
  function AddUrlOn(mode: Normalization, urls: seq<string>, url: Value): (o: Outcome<AddResult>)
    ensures o.result.InvalidUrl? <==> !NonBlankString(url)
    ensures !o.result.InvalidUrl? ==> o.result.url == Normalize(mode, Trim(url.s))
    ensures o.result.AlreadyPresent? <==> NonBlankString(url) && Normalize(mode, Trim(url.s)) in urls
    ensures !o.result.Added? ==> o.urls == urls
    ensures o.result.Added? ==> o.urls == urls + [o.result.url] && o.result.total == |o.urls|
  {
    if !Truthy(url) || !url.Str? then Outcome(InvalidUrl, urls)
    else
      TrimEmptyIff(url.s);
      if Trim(url.s) == "" then Outcome(InvalidUrl, urls)
      else
        var n := Normalize(mode, Trim(url.s));
        if n in urls then Outcome(AlreadyPresent(n), urls)
        else Outcome(Added(n, |urls| + 1), urls + [n])
  }

  /** `removeUrl` with an all-digit argument: the 1-based position of the entry to remove. */
  function RemoveAtPosition(urls: seq<string>, digits: string): (o: Outcome<RemoveResult>)
    ensures var k := ParseIntOrZero(digits) - 1;
            (o.result.Removed? <==> 0 <= k < |urls|)
            && (o.result.Removed? ==> o.result == Removed(urls[k], |urls| - 1) && o.urls == RemoveAt(urls, k))
    ensures !o.result.Removed? ==> o.result == NotFound(digits) && o.urls == urls
  {
    var k := ParseIntOrZero(digits) - 1;
    if 0 <= k < |urls| then Outcome(Removed(urls[k], |urls| - 1), RemoveAt(urls, k))
    else Outcome(NotFound(digits), urls)
  }

  /** `removeUrl` with any other string, once it is normalised to `n`: the first occurrence of `n` is removed. */
  function RemoveByPath(urls: seq<string>, n: string): (o: Outcome<RemoveResult>)
    ensures o.result.Removed? <==> n in urls
    ensures !o.result.Removed? ==> o.result == NotFound(n) && o.urls == urls
    ensures o.result.Removed? ==>
              o.result == Removed(n, |urls| - 1)
              && exists k :: 0 <= k < |urls| && urls[k] == n && n !in urls[..k] && o.urls == RemoveAt(urls, k)
  {
    var k := FirstIndex(urls, n);
    if k == -1 then Outcome(NotFound(n), urls)
    else
      assert n !in urls[..k];
      Outcome(Removed(n, |urls| - 1), RemoveAt(urls, k))
  }

  /**
   * `removeUrl(url)` on the saved list `urls`: an argument whose string form
   * is all digits is a 1-based position, a string is normalised and looked up,
   * anything else makes the normalisation throw.
   */
  function RemoveUrlOn(mode: Normalization, urls: seq<string>, url: Value): (o: Outcome<RemoveResult>)
    ensures o.result.MissingArgument? <==> !Truthy(url)
    ensures o.result.RemoveTypeError? <==> Truthy(url) && !AllDigits(ToString(url)) && !url.Str?
    ensures o.result.MissingArgument? || o.result.RemoveTypeError? ==> o.urls == urls
    ensures Truthy(url) && AllDigits(ToString(url)) ==> o == RemoveAtPosition(urls, ToString(url))
    ensures Truthy(url) && url.Str? && !AllDigits(url.s) ==> o == RemoveByPath(urls, Normalize(mode, url.s))
  {
    if !Truthy(url) then Outcome(MissingArgument, urls)
    else
      var s := ToString(url);
      if AllDigits(s) then RemoveAtPosition(urls, s)
      else if !url.Str? then Outcome(RemoveTypeError, urls)
      else RemoveByPath(urls, Normalize(mode, url.s))
  }

  predicate AllStrings(es: seq<Value>)
  {
    forall i :: 0 <= i < |es| ==> es[i].Str?
  }

  function StringsOf(es: seq<Value>): (r: seq<string>)
    requires AllStrings(es)
    ensures |r| == |es| && forall i :: 0 <= i < |es| ==> r[i] == es[i].s
  {
    seq(|es|, i requires 0 <= i < |es| => es[i].s)
  }

  /** The duplicate check and the reassignment of `updateUrls`, for an already normalised list `ns`. */
  function ReplaceList(urls: seq<string>, ns: seq<string>): (o: Outcome<UpdateResult>)
    ensures o.result.Updated? || o.result.DuplicateUrls?
    ensures o.result.DuplicateUrls? <==> !NoDup(ns)
    ensures o.result.Updated? ==> o == Outcome(Updated(|ns|), ns)
    ensures !o.result.Updated? ==> o.urls == urls
  {
    var unique := Distinct(ns);
    DistinctLength(ns);
    if |unique| != |ns| then Outcome(DuplicateUrls, urls)
    else DistinctOfNoDup(ns); Outcome(Updated(|unique|), unique)
  }

  /** `updateUrls(v)` on the saved list `urls`: the whole list is replaced unless the new one has duplicates. */
  function UpdateUrlsOn(mode: Normalization, urls: seq<string>, v: Value): (o: Outcome<UpdateResult>)
    ensures o.result.NotAnArray? <==> !v.Arr?
    ensures o.result.UpdateTypeError? <==> v.Arr? && !AllStrings(v.elems)
    ensures o.result.DuplicateUrls? <==> v.Arr? && AllStrings(v.elems) && !NoDup(NormalizeAll(mode, StringsOf(v.elems)))
    ensures o.result.Updated? ==> o.urls == NormalizeAll(mode, StringsOf(v.elems)) && o.result.total == |o.urls|
    ensures !o.result.Updated? ==> o.urls == urls
  {
    if !v.Arr? then Outcome(NotAnArray, urls)
    else if !AllStrings(v.elems) then Outcome(UpdateTypeError, urls)
    else ReplaceList(urls, NormalizeAll(mode, StringsOf(v.elems)))
  }

  // ----- properties of the operations -----

  /** Removing an entry, by position or by path, keeps a duplicate-free list duplicate-free. */
  lemma RemoveKeepsNoDup(mode: Normalization, urls: seq<string>, url: Value)
    requires NoDup(urls)
    ensures NoDup(RemoveUrlOn(mode, urls, url).urls)
  {
    if Truthy(url) && AllDigits(ToString(url)) {
      var k := ParseIntOrZero(ToString(url)) - 1;
      if 0 <= k < |urls| {
        RemoveAtNoDup(urls, k);
      }
    } else if Truthy(url) && url.Str? {
      var o := RemoveByPath(urls, Normalize(mode, url.s));
      if o.result.Removed? {
        var n := Normalize(mode, url.s);
        var k :| 0 <= k < |urls| && urls[k] == n && n !in urls[..k] && o.urls == RemoveAt(urls, k);
        RemoveAtNoDup(urls, k);
      }
    }
  }

  /** A successful removal removes the entry at one position. */
  lemma RemovedAtSomePosition(mode: Normalization, urls: seq<string>, url: Value)
    requires RemoveUrlOn(mode, urls, url).result.Removed?
    ensures exists k :: 0 <= k < |urls| && RemoveUrlOn(mode, urls, url).urls == RemoveAt(urls, k)
  {
    if AllDigits(ToString(url)) {
      var k := ParseIntOrZero(ToString(url)) - 1;
      assert RemoveUrlOn(mode, urls, url).urls == RemoveAt(urls, k);
    } else {
      var o := RemoveByPath(urls, Normalize(mode, url.s));
      var n := Normalize(mode, url.s);
      var k :| 0 <= k < |urls| && urls[k] == n && n !in urls[..k] && o.urls == RemoveAt(urls, k);
    }
  }

  /** Adding and replacing never leave a duplicate in a list that had none. */
  lemma AddAndUpdateKeepNoDup(mode: Normalization, urls: seq<string>, v: Value)
    requires NoDup(urls)
    ensures NoDup(AddUrlOn(mode, urls, v).urls)
    ensures NoDup(UpdateUrlsOn(mode, urls, v).urls)
  {
    var a := AddUrlOn(mode, urls, v);
    if a.result.Added? {
      NoDupSnoc(urls, a.result.url);
    }
    var u := UpdateUrlsOn(mode, urls, v);
    if u.result.Updated? {
      assert NoDup(NormalizeAll(mode, StringsOf(v.elems)));
    }
  }

  /** Adding the same URL a second time reports it as present and leaves the list as the first addition left it. */
  lemma AddUrlTwice(mode: Normalization, urls: seq<string>, url: Value)
    ensures var o := AddUrlOn(mode, urls, url);
            var o2 := AddUrlOn(mode, o.urls, url);
            o2.urls == o.urls && (NonBlankString(url) ==> o2.result == AlreadyPresent(Normalize(mode, Trim(url.s))))
  {
  }

  /** The argument `Str(n)` for a path `n` wrapped in slashes is removed by path, never by position. */
  lemma RemovePathArgument(mode: Normalization, urls: seq<string>, n: string)
    requires SlashWrapped(n)
    ensures RemoveUrlOn(mode, urls, Str(n)) == RemoveByPath(urls, Normalize(mode, n))
  {
    assert !AllDigits(n) by { assert !IsDigit(n[0]); }
    assert ToString(Str(n)) == n && Truthy(Str(n));
  }

  /**
   * Removing by path a path that was appended to a list without it gives back
   * the list as it was exactly when that path normalises to itself.
   */
  lemma RemoveAppended(mode: Normalization, urls: seq<string>, n: string)
    requires SlashWrapped(n) && n !in urls
    ensures RemoveUrlOn(mode, urls + [n], Str(n)) == Outcome(Removed(n, |urls|), urls) <==> Normalize(mode, n) == n
  {
    RemovePathArgument(mode, urls + [n], n);
    if Normalize(mode, n) == n {
      RemoveAppendedSettled(urls, n);
    }
  }

  lemma RemoveAppendedSettled(urls: seq<string>, n: string)
    requires n !in urls
    ensures RemoveByPath(urls + [n], n) == Outcome(Removed(n, |urls|), urls)
  {
    var s := urls + [n];
    AppendedFoundLast(urls, n);
    assert FirstIndex(s, n) == |s| - 1;
    assert RemoveByPath(s, n) == Outcome(Removed(n, |s| - 1), RemoveAt(s, |s| - 1));
  }

  /**
   * Removing, by the path that was reported, a URL just added gives back the
   * list as it was exactly when that path normalises to itself.
   */
  lemma {:induction false} AddThenRemove(mode: Normalization, urls: seq<string>, url: Value)
    requires AddUrlOn(mode, urls, url).result.Added?
    ensures var o := AddUrlOn(mode, urls, url);
            var n := o.result.url;
            RemoveUrlOn(mode, o.urls, Str(n)) == Outcome(Removed(n, |urls|), urls) <==> Normalize(mode, n) == n
  {
    var o := AddUrlOn(mode, urls, url);
    RemoveAppended(mode, urls, o.result.url);
  }

  /** With the corrected normalisation, removing a URL just added always gives back the list as it was. */
  lemma AddThenRemoveCorrected(urls: seq<string>, url: Value)
    requires AddUrlOn(Corrected, urls, url).result.Added?
    ensures var o := AddUrlOn(Corrected, urls, url);
            RemoveUrlOn(Corrected, o.urls, Str(o.result.url)) == Outcome(Removed(o.result.url, |urls|), urls)
  {
    NormalizeUrlIdempotent(Trim(url.s));
    AddThenRemove(Corrected, urls, url);
  }

  /** The Git Bash path without its leading slash is a non-blank string that `trim` leaves alone. */
  lemma GitPathTrimmed()
    ensures NonBlankString(Str("c/Program Files/Git/"))
    ensures Trim("c/Program Files/Git/") == "c/Program Files/Git/"
  {
    var u := "c/Program Files/Git/";
    assert !IsSpace(u[0]) && !IsSpace(u[|u| - 1]);
    assert TrimStart(u) == u;
  }

  /** Adding a non-blank string whose normalised form is absent appends that form. */
  lemma AddFresh(mode: Normalization, urls: seq<string>, url: Value)
    requires NonBlankString(url) && Normalize(mode, Trim(url.s)) !in urls
    ensures var n := Normalize(mode, Trim(url.s));
            AddUrlOn(mode, urls, url) == Outcome(Added(n, |urls| + 1), urls + [n])
  {
  }

  /** Removing by path a string whose normalised form is absent reports that form as not found. */
  lemma RemoveMissing(mode: Normalization, urls: seq<string>, s: string)
    requires s != "" && !AllDigits(s) && Normalize(mode, s) !in urls
    ensures RemoveUrlOn(mode, urls, Str(s)) == Outcome(NotFound(Normalize(mode, s)), urls)
  {
    assert ToString(Str(s)) == s && Truthy(Str(s));
  }

  /**
   * As written, a URL that `addUrl` stores is not always one `removeUrl` finds
   * again: the stored `"/c/Program Files/Git/"` is looked up as `"/"`.
   */
  lemma AddThenRemoveAsWrittenFails()
    ensures AddUrlOn(AsWritten, [], Str("c/Program Files/Git/"))
         == Outcome(Added("/c/Program Files/Git/", 1), ["/c/Program Files/Git/"])
    ensures RemoveUrlOn(AsWritten, ["/c/Program Files/Git/"], Str("/c/Program Files/Git/"))
         == Outcome(NotFound("/"), ["/c/Program Files/Git/"])
  {
    NormalizeUrlAsWrittenNotIdempotent();
    GitPathTrimmed();
    AddFresh(AsWritten, [], Str("c/Program Files/Git/"));
    RemoveShrunk("/c/Program Files/Git/");
  }

  /** A single stored path that normalises to `"/"` is not found by its own name. */
  lemma RemoveShrunk(p: string)
    requires SlashWrapped(p) && |p| > 1 && NormalizeUrlAsWritten(p) == "/"
    ensures RemoveUrlOn(AsWritten, [p], Str(p)) == Outcome(NotFound("/"), [p])
  {
    assert !AllDigits(p) by { assert !IsDigit(p[0]); }
    assert p != "/" by { assert |p| != |"/"|; }
    RemoveMissing(AsWritten, [p], p);
  }

  lemma PairOfElements<T>(w: seq<T>)
    requires |w| == 2
    ensures w == [w[0], w[1]]
  {
  }

  /** Replacing the list by two strings keeps both normalised forms, unless they coincide. */
  lemma UpdatePair(mode: Normalization, x: string, y: string)
    ensures var nx, ny := Normalize(mode, x), Normalize(mode, y);
            UpdateUrlsOn(mode, [], Arr([Str(x), Str(y)]))
            == if nx != ny then Outcome(Updated(2), [nx, ny]) else Outcome(DuplicateUrls, [])
  {
    var es := [Str(x), Str(y)];
    assert AllStrings(es);
    assert StringsOf(es) == [x, y];
    var w := NormalizeAll(mode, [x, y]);
    PairOfElements(w);
    if Normalize(mode, x) != Normalize(mode, y) {
      UpdateDistinctPair(w);
    } else {
      assert !NoDup(w);
    }
  }

  lemma UpdateDistinctPair(w: seq<string>)
    requires |w| == 2 && w[0] != w[1]
    ensures ReplaceList([], w) == Outcome(Updated(2), w)
  {
    assert NoDup(w);
  }

  /**
   * As written, `updateUrls` accepts a list that the corrected normalisation
   * reports as holding a duplicate, and stores a path `normalizeUrl` would
   * shorten further: any path whose second normalisation is `"/"` but whose
   * first is not, such as `"c/Program Files/Git/"`
   * (`NormalizeUrlAsWrittenNotIdempotent`), listed together with `"/"`.
   */
  lemma UpdateAsWrittenKeepsUnsettled(x: string)
    requires NormalizeUrlAsWritten(x) != "/" && NormalizeUrlAsWritten(NormalizeUrlAsWritten(x)) == "/"
    ensures UpdateUrlsOn(AsWritten, [], Arr([Str(x), Str("/")])) == Outcome(Updated(2), [NormalizeUrlAsWritten(x), "/"])
    ensures UpdateUrlsOn(Corrected, [], Arr([Str(x), Str("/")])).result == DuplicateUrls
  {
    RootSettled();
    assert NormalizeUrl(x) == "/";
    UpdateWithSettled(x, "/");
  }

  lemma RootSettled()
    ensures NormalizeUrlAsWritten("/") == "/" && NormalizeUrl("/") == "/"
  {
    SlashWrappedIff("/");
    assert NormalizeUrlAsWritten("/") == "/";
    assert Settle("/") == "/";
  }

  /** `x` listed with a settled path `y` that only its corrected normalisation reaches. */
  lemma UpdateWithSettled(x: string, y: string)
    requires NormalizeUrlAsWritten(y) == y && NormalizeUrl(y) == y
    requires NormalizeUrlAsWritten(x) != y && NormalizeUrl(x) == y
    ensures UpdateUrlsOn(AsWritten, [], Arr([Str(x), Str(y)])) == Outcome(Updated(2), [NormalizeUrlAsWritten(x), y])
    ensures UpdateUrlsOn(Corrected, [], Arr([Str(x), Str(y)])).result == DuplicateUrls
  {
    UpdatePair(AsWritten, x, y);
    UpdatePair(Corrected, x, y);
  }

  /** No element of a duplicate-free list survives the removal of its own position. */
  lemma RemoveAtDropsOnly<T>(s: seq<T>, i: nat, k: nat)
    requires NoDup(s) && i < |s| && k < |s|
    ensures s[i] in RemoveAt(s, k) <==> i != k
  {
    var r := RemoveAt(s, k);
    if i < k {
      assert r[i] == s[i];
    } else if i > k {
      assert r[i - 1] == s[i];
    } else {
      forall j | 0 <= j < |r|
        ensures r[j] != s[i]
      {
        if j < k { assert r[j] == s[j]; } else { assert r[j] == s[j + 1]; }
      }
    }
  }

  /** An integer argument `i` is removed by position: the `i`-th entry, counting from 1. */
  lemma RemoveNumberArgument(mode: Normalization, urls: seq<string>, i: nat)
    requires 1 <= i <= |urls|
    ensures RemoveUrlOn(mode, urls, Number(i)) == Outcome(Removed(urls[i - 1], |urls| - 1), RemoveAt(urls, i - 1))
  {
    var digits := ToString(Number(i));
    assert digits == IntToString(i) == NatToString(i);
    ParseIntOfIntToString(i);
    assert RemoveUrlOn(mode, urls, Number(i)) == RemoveAtPosition(urls, digits);
  }

  /** On a duplicate-free list, looking up `n` removes position `j` exactly when `n` is the entry there. */
  lemma RemoveByPathAt(urls: seq<string>, n: string, j: nat)
    requires NoDup(urls) && j < |urls|
    ensures RemoveByPath(urls, n).urls == RemoveAt(urls, j) <==> n == urls[j]
  {
    var o := RemoveByPath(urls, n);
    RemoveAtDropsOnly(urls, j, j);
    if n == urls[j] {
      assert FirstIndex(urls, n) == j;
    } else if n in urls {
      var k :| 0 <= k < |urls| && urls[k] == n && n !in urls[..k] && o.urls == RemoveAt(urls, k);
      RemoveAtDropsOnly(urls, j, k);
    } else {
      assert urls[j] in o.urls;
    }
  }

  /**
   * On a duplicate-free list, removing by 1-based position removes that
   * entry, and removing by the path stored there has the same effect exactly
   * when that path normalises to itself.
   */
  lemma RemoveByPositionOrPath(mode: Normalization, urls: seq<string>, i: nat)
    requires NoDup(urls) && 1 <= i <= |urls|
    requires urls[i - 1] != "" && !AllDigits(urls[i - 1])
    ensures RemoveUrlOn(mode, urls, Number(i)) == Outcome(Removed(urls[i - 1], |urls| - 1), RemoveAt(urls, i - 1))
    ensures RemoveUrlOn(mode, urls, Str(urls[i - 1])).urls == RemoveAt(urls, i - 1) <==> Normalize(mode, urls[i - 1]) == urls[i - 1]
  {
    RemoveNumberArgument(mode, urls, i);
    var u := urls[i - 1];
    assert ToString(Str(u)) == u && Truthy(Str(u));
    assert RemoveUrlOn(mode, urls, Str(u)) == RemoveByPath(urls, Normalize(mode, u));
    RemoveByPathAt(urls, Normalize(mode, u), i - 1);
  }

  /** A successful replacement leaves a duplicate-free list of paths wrapped in slashes, settled when corrected. */
  lemma UpdateUrlsNormalized(mode: Normalization, urls: seq<string>, v: Value)
    requires UpdateUrlsOn(mode, urls, v).result.Updated?
    ensures var r := UpdateUrlsOn(mode, urls, v).urls;
            NoDup(r) && forall u :: u in r ==> SlashWrapped(u) && (mode.Corrected? ==> NormalizeUrl(u) == u)
  {
    NormalizeAllSettled(mode, StringsOf(v.elems));
  }

  /** Every normalised path is wrapped in slashes, and under the corrected normalisation it normalises to itself. */
  lemma NormalizeAllSettled(mode: Normalization, xs: seq<string>)
    ensures forall u :: u in NormalizeAll(mode, xs) ==> SlashWrapped(u) && (mode.Corrected? ==> NormalizeUrl(u) == u)
  {
    var r := NormalizeAll(mode, xs);
    forall u | u in r
      ensures SlashWrapped(u) && (mode.Corrected? ==> NormalizeUrl(u) == u)
    {
      var i :| 0 <= i < |r| && r[i] == u;
      NormalizeUrlIdempotent(xs[i]);
    }
  }

  /** The saved URL configuration (`config/urls.json`); its operations normalise as the source does. */
  class UrlConfig {
    var urls: seq<string>
    var description: string

    /** The configuration `ensureConfig` writes when there is none. */
    constructor Default()
      ensures urls == [] && description == DefaultDescription
    {
      urls := [];
      description := DefaultDescription;
    }

    /** A configuration read back from disk. */
    constructor Load(savedUrls: seq<string>, savedDescription: string)
      ensures urls == savedUrls && description == savedDescription
    {
      urls := savedUrls;
      description := savedDescription;
    }

    method AddUrl(url: Value) returns (r: AddResult)
      modifies this
      ensures Outcome(r, urls) == AddUrlOn(AsWritten, old(urls), url)
      ensures NoDup(old(urls)) ==> NoDup(urls)
      ensures description == old(description)
    {
      if !Truthy(url) || !url.Str? {
        return InvalidUrl;
      }
      TrimEmptyIff(url.s);
      if Trim(url.s) == "" {
        return InvalidUrl;
      }
      r := AddNormalized(NormalizeUrlAsWritten(Trim(url.s)));
    }

    /** The presence check and the `push` of `addUrl` for an already normalised path. */
    method AddNormalized(normalized: string) returns (r: AddResult)
      modifies this
      ensures normalized in old(urls) ==> r == AlreadyPresent(normalized) && urls == old(urls)
      ensures normalized !in old(urls) ==> r == Added(normalized, |old(urls)| + 1) && urls == old(urls) + [normalized]
      ensures NoDup(old(urls)) ==> NoDup(urls)
      ensures description == old(description)
    {
      if normalized in urls {
        return AlreadyPresent(normalized);
      }
      if NoDup(urls) {
        NoDupSnoc(urls, normalized);
      }
      urls := urls + [normalized];
      r := Added(normalized, |urls|);
    }

    /** The position `removeUrl` removes, or -1, and the path it reports. */
    method Locate(url: Value) returns (index: int, removed: string)
      requires Truthy(url) && (AllDigits(ToString(url)) || url.Str?)
      ensures index == -1 ==> RemoveUrlOn(AsWritten, urls, url) == Outcome(NotFound(removed), urls)
      ensures index != -1 ==> 0 <= index < |urls| && RemoveUrlOn(AsWritten, urls, url) == Outcome(Removed(removed, |urls| - 1), RemoveAt(urls, index))
    {
      index := -1;
      removed := ToString(url);
      if AllDigits(removed) {
        var k := ParseIntOrZero(removed) - 1;
        if 0 <= k < |urls| {
          index := k;
          removed := urls[k];
        }
      } else {
        var normalized := NormalizeUrlAsWritten(url.s);
        index := FirstIndex(urls, normalized);
        removed := normalized;
      }
    }

    method RemoveUrl(url: Value) returns (r: RemoveResult)
      modifies this
      ensures Outcome(r, urls) == RemoveUrlOn(AsWritten, old(urls), url)
      ensures NoDup(old(urls)) ==> NoDup(urls)
      ensures description == old(description)
    {
      if !Truthy(url) {
        return MissingArgument;
      }
      if !AllDigits(ToString(url)) && !url.Str? {
        return RemoveTypeError;
      }
      r := RemoveLocated(url);
    }

    /** The lookup and the `splice` of `removeUrl` once the argument has passed its checks. */
    method RemoveLocated(url: Value) returns (r: RemoveResult)
      requires Truthy(url) && (AllDigits(ToString(url)) || url.Str?)
      modifies this
      ensures Outcome(r, urls) == RemoveUrlOn(AsWritten, old(urls), url)
      ensures NoDup(old(urls)) ==> NoDup(urls)
      ensures description == old(description)
    {
      var index, removed := Locate(url);
      if index == -1 {
        return NotFound(removed);
      }
      ghost var o := RemoveUrlOn(AsWritten, urls, url);
      assert o.result == Removed(removed, |urls| - 1);
      assert o.urls == RemoveAt(urls, index);
      Splice(index);
      r := Removed(removed, |urls|);
      assert r == o.result && urls == o.urls;
    }

    /** `config.urls.splice(index, 1)` */
    method Splice(index: nat)
      requires index < |urls|
      modifies this
      ensures urls == RemoveAt(old(urls), index)
      ensures NoDup(old(urls)) ==> NoDup(urls)
      ensures description == old(description)
    {
      if NoDup(urls) {
        RemoveAtNoDup(urls, index);
      }
      urls := RemoveAt(urls, index);
    }

    method ClearUrls() returns (count: nat)
      modifies this
      ensures count == |old(urls)| && urls == []
      ensures description == old(description)
    {
      count := |urls|;
      urls := [];
    }

    method UpdateUrls(v: Value) returns (r: UpdateResult)
      modifies this
      ensures Outcome(r, urls) == UpdateUrlsOn(AsWritten, old(urls), v)
      ensures r.Updated? ==> NoDup(urls)
      ensures description == old(description)
    {
      if !v.Arr? {
        return NotAnArray;
      }
      if !AllStrings(v.elems) {
        return UpdateTypeError;
      }
      var normalized := NormalizeAll(AsWritten, StringsOf(v.elems));
      var unique := Distinct(normalized);
      DistinctLength(normalized);
      if |unique| != |normalized| {
        return DuplicateUrls;
      }
      urls := unique;
      r := Updated(|urls|);
    }
  }
}
