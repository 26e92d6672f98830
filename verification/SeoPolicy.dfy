/** The allowlist of indexable pages and its three encodings: the check of a path, the rules of
    robots.txt, and the exemptions of the web server from the noindex header. */
module SeoPolicy {
  import opened Text

  const SITEMAP_PATHS: seq<string> := [
    "/", "/about", "/terms", "/privacy", "/guidelines", "/adult-content-consent", "/minor-safety",
    "/ncii", "/dmca", "/law-enforcement", "/security", "/policies", "/policies/appeals",
    "/policies/moderator-code-of-conduct", "/policies/adult-content-records", "/policies/groups",
    "/policies/events", "/policies/payments", "/vendor-organizer-terms"]

  // ---------------------------------------------------------------- the check of a path

  function Normalize(pathname: string): string {
    var trimmed := Trim(BeforeQuery(pathname));
    var raw := if trimmed == "" then "/" else trimmed;
    if |raw| > 1 && raw[|raw| - 1] == '/' then raw[..|raw| - 1] else raw
  }

  predicate Covers(allowed: string, path: string) {
    allowed != "/" && (path == allowed || (allowed == "/policies" && "/policies/" <= path))
  }

  predicate IsIndexPath(pathname: string, list: seq<string>) {
    var path := Normalize(pathname);
    path == "/" || exists a :: a in list && Covers(a, path)
  }

  method IsKinkSocialPublicIndexPath(pathname: string) returns (r: bool)
    ensures r == IsIndexPath(pathname, SITEMAP_PATHS)
  {
    r := IsInAllowlist(pathname, SITEMAP_PATHS);
  }

  method IsInAllowlist(pathname: string, list: seq<string>) returns (r: bool)
    ensures r == IsIndexPath(pathname, list)
  {
    hide Normalize;
    var path := Normalize(pathname);
    if path == "/" {
      return true;
    }
    for i := 0 to |list|
      invariant forall k :: 0 <= k < i ==> !Covers(list[k], path)
    {
      var allowed := list[i];
      if allowed == "/" {
        continue;
      }
      if path == allowed {
        assert Covers(allowed, path);
        return true;
      }
      if allowed == "/policies" && "/policies/" <= path {
        assert Covers(allowed, path);
        return true;
      }
    }
    return false;
  }

  // ---------------------------------------------------------------- robots.txt

  function AllowLine(pattern: string): string {
    "Allow: " + pattern
  }

  function DisallowLine(pattern: string): string {
    "Disallow: " + pattern
  }

  function Anchored(path: string): string {
    path + "$"
  }

  // The line of one page, if it needs its own.
  function LineOf(path: string): seq<string> {
    if path == "/" then []
    else if path == "/policies" then [AllowLine("/policies")]
    else if "/policies/" <= path then []
    else [AllowLine(Anchored(path))]
  }

  function LinesOf(list: seq<string>): seq<string> {
    if |list| == 0 then [] else LinesOf(list[..|list| - 1]) + LineOf(list[|list| - 1])
  }

  function AllowLines(list: seq<string>): seq<string> {
    [AllowLine("/sitemap.xml"), AllowLine(Anchored("/"))] + LinesOf(list)
  }

  method KinkSocialPublicRobotsAllowLines(list: seq<string>) returns (lines: seq<string>)
    ensures lines == AllowLines(list)
  {
    var first := [AllowLine("/sitemap.xml"), AllowLine(Anchored("/"))];
    lines := first;
    for i := 0 to |list|
      invariant lines == first + LinesOf(list[..i])
    {
      assert list[..i + 1][..i] == list[..i];
      var path := list[i];
      if path == "/" {
        continue;
      }
      if path == "/policies" {
        lines := lines + [AllowLine("/policies")];
        continue;
      }
      if "/policies/" <= path {
        continue;
      }
      lines := lines + [AllowLine(Anchored(path))];
    }
    assert list[..|list|] == list;
  }

  // The group of robots.txt for all crawlers, line by line.
  function RobotsLines(publicLaunch: bool, list: seq<string>): seq<string> {
    if publicLaunch then AllowLines(list) + [DisallowLine("/")] else [DisallowLine("/")]
  }

  datatype Rule = Allow(pattern: string) | Disallow(pattern: string)

  function RuleOf(line: string): Rule {
    if "Allow: " <= line then Allow(line[7..]) else if "Disallow: " <= line then Disallow(line[10..]) else Allow("")
  }

  // RFC 9309 section 2.2.3: a rule matches from the start of the path; a final $ anchors it at the
  // end.  The wildcard * does not occur in these rules.
  predicate PatternMatches(pattern: string, path: string) {
    if |pattern| > 0 && pattern[|pattern| - 1] == '$' then path == pattern[..|pattern| - 1] else pattern <= path
  }

  predicate RuleMatches(line: string, path: string) {
    PatternMatches(RuleOf(line).pattern, path)
  }

  // RFC 9309 section 2.2.2: /robots.txt itself is always allowed; else the longest matching rule
  // decides, on a tie the allowing one; without a matching rule the path is allowed.
  ghost predicate RobotsAllow(lines: seq<string>, path: string) {
    path == "/robots.txt" || forall d :: d in lines && RuleOf(d).Disallow? && RuleMatches(d, path) ==>
      exists a :: a in lines && RuleOf(a).Allow? && RuleMatches(a, path)
                  && |RuleOf(a).pattern| >= |RuleOf(d).pattern|
  }

  // ---------------------------------------------------------------- the web server

  function CaddyExempt(list: seq<string>): set<string> {
    {"/", "/robots.txt", "/sitemap.xml", "/policies/*"} + set p | p in list && !("/policies/" <= p)
  }

  method KinkSocialPublicCaddyExemptPaths(list: seq<string>) returns (paths: set<string>)
    ensures paths == CaddyExempt(list)
  {
    paths := {"/", "/robots.txt", "/sitemap.xml"};
    for i := 0 to |list|
      invariant paths == {"/", "/robots.txt", "/sitemap.xml"} + set p | p in list[..i] && !("/policies/" <= p)
    {
      assert list[..i + 1] == list[..i] + [list[i]];
      if "/policies/" <= list[i] {
        continue;
      }
      paths := paths + {list[i]};
    }
    assert list[..|list|] == list;
    paths := paths + {"/policies/*"};
  }

  // A final * matches any ending.
  predicate CaddyMatches(pattern: string, path: string) {
    if |pattern| > 0 && pattern[|pattern| - 1] == '*' then pattern[..|pattern| - 1] <= path else path == pattern
  }

  ghost predicate Exempt(list: seq<string>, path: string) {
    exists p :: p in CaddyExempt(list) && CaddyMatches(p, path)
  }

  // ---------------------------------------------------------------- how the encodings agree

  // A page's path: it starts with a slash and ends with none of the characters that the encodings
  // read as operators.
  predicate IsPage(p: string) {
    |p| > 0 && p[0] == '/' && p[|p| - 1] != '$' && p[|p| - 1] != '*'
  }

  ghost predicate IsAllowlist(list: seq<string>) {
    && "/" in list && "/policies" in list
    && forall p :: p in list ==> IsPage(p)
  }

  lemma FirstPages()
    ensures forall i :: 0 <= i < 10 ==> IsPage(SITEMAP_PATHS[i])
  {
    var l := SITEMAP_PATHS;
    assert IsPage(l[0]) && IsPage(l[1]) && IsPage(l[2]) && IsPage(l[3]) && IsPage(l[4]);
    assert IsPage(l[5]) && IsPage(l[6]) && IsPage(l[7]) && IsPage(l[8]) && IsPage(l[9]);
  }

  lemma LastPages()
    ensures forall i :: 10 <= i < 19 ==> IsPage(SITEMAP_PATHS[i])
  {
    var l := SITEMAP_PATHS;
    assert IsPage(l[10]) && IsPage(l[11]) && IsPage(l[12]) && IsPage(l[13]) && IsPage(l[14]);
    assert IsPage(l[15]) && IsPage(l[16]) && IsPage(l[17]) && IsPage(l[18]);
  }

  lemma ShippedListIsAllowlist()
    ensures IsAllowlist(SITEMAP_PATHS)
  {
    FirstPages();
    LastPages();
    hide IsPage;
    assert SITEMAP_PATHS[0] == "/" && SITEMAP_PATHS[11] == "/policies";
  }

  lemma {:induction false} BeforeQueryShorter(s: string)
    ensures |BeforeQuery(s)| <= |s|
  {
    if |s| > 0 && s[0] != '?' { BeforeQueryShorter(s[1..]); }
  }

  lemma {:induction false} TrimEndShorter(s: string)
    ensures |TrimEnd(s)| <= |s|
  {
    if |s| > 0 && IsSpace(s[|s| - 1]) { TrimEndShorter(s[..|s| - 1]); }
  }

  lemma {:induction false} TrimShorter(s: string)
    ensures |Trim(s)| <= |s|
  {
    if |s| > 0 && IsSpace(s[0]) { TrimShorter(s[1..]); } else { TrimEndShorter(s); }
  }

  // A path that is its own normalization ends with a slash only if it is the root.
  lemma NormalPath(p: string)
    requires p == Normalize(p)
    ensures p == "/" || (|p| > 0 && p[|p| - 1] != '/')
  {
    BeforeQueryShorter(p);
    TrimShorter(BeforeQuery(p));
    hide Trim, BeforeQuery;
  }

  /** The web server exempts exactly the index pages and the two crawl files. */
  lemma CaddyAgrees(p: string, list: seq<string>)
    requires IsAllowlist(list) && p == Normalize(p)
    ensures Exempt(list, p) <==> IsIndexPath(p, list) || p == "/robots.txt" || p == "/sitemap.xml"
  {
    NormalPath(p);
    hide Normalize;
    if Exempt(list, p) {
      var e :| e in CaddyExempt(list) && CaddyMatches(e, p);
      ExemptIsIndex(e, p, list);
    }
    if p == "/" || p == "/robots.txt" || p == "/sitemap.xml" {
      assert p in CaddyExempt(list) && CaddyMatches(p, p);
    } else if IsIndexPath(p, list) {
      var a :| a in list && Covers(a, p);
      IndexIsExempt(a, p, list);
    }
  }

  lemma ExemptIsIndex(e: string, p: string, list: seq<string>)
    requires IsAllowlist(list) && p == Normalize(p) && e in CaddyExempt(list) && CaddyMatches(e, p)
    ensures IsIndexPath(p, list) || p == "/robots.txt" || p == "/sitemap.xml"
  {
    hide Normalize;
    if e == "/policies/*" {
      assert e[..|e| - 1] == "/policies/";
      assert Covers("/policies", p);
    } else if e in list {
      assert IsPage(e) && p == e;
      if e != "/" { assert Covers(e, p); }
    }
  }

  lemma IndexIsExempt(a: string, p: string, list: seq<string>)
    requires IsAllowlist(list) && a in list && Covers(a, p)
    ensures Exempt(list, p)
  {
    if "/policies/" <= p {
      var e := "/policies/*";
      assert e in CaddyExempt(list) && e[..|e| - 1] == "/policies/" && CaddyMatches(e, p);
    } else {
      assert IsPage(a) && a == p;
      assert p in CaddyExempt(list) && CaddyMatches(p, p);
    }
  }

  // ---------------------------------------------------------------- robots rules one by one

  lemma {:induction false} LineIsOfPage(list: seq<string>, line: string)
    ensures line in LinesOf(list) <==> exists p :: p in list && line in LineOf(p)
  {
    if |list| > 0 {
      var (rest, l) := (list[..|list| - 1], list[|list| - 1]);
      assert list == rest + [l];
      LineIsOfPage(rest, line);
      if exists p :: p in rest && line in LineOf(p) {
        var p :| p in rest && line in LineOf(p);
        assert p in list;
      }
    }
  }

  lemma AllowLineReads(pattern: string)
    ensures RuleOf(AllowLine(pattern)) == Allow(pattern)
  {
    assert AllowLine(pattern)[7..] == pattern;
  }

  lemma DisallowLineReads(pattern: string)
    ensures RuleOf(DisallowLine(pattern)) == Disallow(pattern)
  {
    var line := DisallowLine(pattern);
    assert line[0] == 'D' && "Allow: "[0] == 'A';
    assert line[10..] == pattern;
  }

  lemma AnchoredMatches(page: string, path: string)
    ensures PatternMatches(Anchored(page), path) <==> path == page
  {
    assert Anchored(page)[..|page|] == page;
  }

  lemma PrefixMatches(page: string, path: string)
    requires |page| > 0 && page[|page| - 1] != '$'
    ensures PatternMatches(page, path) <==> page <= path
  {
  }

  // What the line of a page allows.
  lemma PageLineMatches(page: string, line: string, path: string)
    requires IsPage(page) && line in LineOf(page)
    ensures RuleOf(line).Allow? && |RuleOf(line).pattern| >= 1
    ensures RuleMatches(line, path) <==> if page == "/policies" then "/policies" <= path else path == page
  {
    if page == "/policies" {
      AllowLineReads(page);
      PrefixMatches(page, path);
    } else {
      AllowLineReads(Anchored(page));
      AnchoredMatches(page, path);
    }
  }

  // The pages that have a line of their own cover every index path.
  ghost predicate RobotsPages(list: seq<string>, path: string) {
    path == "/" || "/sitemap.xml" <= path || "/policies" <= path || (path in list && !("/policies/" <= path))
  }

  lemma SitemapLine(path: string)
    ensures RuleOf(AllowLine("/sitemap.xml")) == Allow("/sitemap.xml")
    ensures RuleMatches(AllowLine("/sitemap.xml"), path) <==> "/sitemap.xml" <= path
  {
    AllowLineReads("/sitemap.xml");
    PrefixMatches("/sitemap.xml", path);
  }

  lemma RootLine(path: string)
    ensures RuleOf(AllowLine(Anchored("/"))) == Allow(Anchored("/"))
    ensures RuleMatches(AllowLine(Anchored("/")), path) <==> path == "/"
  {
    AllowLineReads(Anchored("/"));
    AnchoredMatches("/", path);
  }

  lemma AllowLineMeans(list: seq<string>, line: string, path: string)
    requires IsAllowlist(list) && line in AllowLines(list)
    ensures RuleOf(line).Allow? && |RuleOf(line).pattern| >= 1
    ensures RuleMatches(line, path) ==> RobotsPages(list, path)
  {
    SitemapLine(path);
    RootLine(path);
    hide RuleOf, RuleMatches;
    if line != AllowLine("/sitemap.xml") && line != AllowLine(Anchored("/")) {
      assert line in LinesOf(list);
      LineIsOfPage(list, line);
      hide LinesOf;
      var p :| p in list && line in LineOf(p);
      PageLineMatches(p, line, path);
    }
  }

  lemma PagesHaveLines(list: seq<string>, path: string) returns (line: string)
    requires IsAllowlist(list) && RobotsPages(list, path)
    ensures line in AllowLines(list) && RuleOf(line).Allow? && RuleMatches(line, path)
  {
    SitemapLine(path);
    RootLine(path);
    hide RuleOf, RuleMatches;
    if path == "/" {
      line := AllowLine(Anchored("/"));
      assert AllowLines(list)[1] == line;
    } else if "/sitemap.xml" <= path {
      line := AllowLine("/sitemap.xml");
      assert AllowLines(list)[0] == line;
    } else {
      var page := if "/policies" <= path then "/policies" else path;
      line := LineOf(page)[0];
      LineIsOfPage(list, line);
      hide LinesOf;
      assert page in list && line in LineOf(page);
      assert IsPage(page);
      PageLineMatches(page, line, path);
    }
  }

  lemma OnlyOneDisallow(list: seq<string>, d: string)
    requires IsAllowlist(list) && d in RobotsLines(true, list) && RuleOf(d).Disallow?
    ensures d == DisallowLine("/")
  {
    if d in AllowLines(list) { AllowLineMeans(list, d, "/"); }
  }

  /** Robots may fetch a path exactly if it does not start with a slash, is /robots.txt or a listed page,
      or begins with /policies or /sitemap.xml. */
  lemma RobotsFetchIff(p: string, list: seq<string>)
    requires IsAllowlist(list)
    ensures RobotsAllow(RobotsLines(true, list), p) <==>
              !("/" <= p) || p == "/robots.txt" || p in list || "/policies" <= p || "/sitemap.xml" <= p
  {
    var lines := RobotsLines(true, list);
    var slash := DisallowLine("/");
    DisallowLineReads("/");
    PrefixMatches("/", p);
    assert lines[|lines| - 1] == slash;
    assert RuleMatches(slash, p) <==> "/" <= p;
    if "/" <= p {
      if RobotsPages(list, p) {
        var a := PagesHaveLines(list, p);
        AllowLineMeans(list, a, p);
        forall d | d in lines && RuleOf(d).Disallow? ensures d == slash { OnlyOneDisallow(list, d); }
        assert a in lines;
      } else {
        forall a | a in lines && RuleOf(a).Allow? ensures !RuleMatches(a, p) {
          AllowLineMeans(list, a, p);
        }
      }
    } else {
      forall d | d in lines && RuleOf(d).Disallow? ensures d == slash { OnlyOneDisallow(list, d); }
    }
  }

  /** For a path that is its own normalization, the listed pages are the index pages. */
  lemma RobotsAllowIff(p: string, list: seq<string>)
    requires IsAllowlist(list) && p == Normalize(p)
    ensures RobotsAllow(RobotsLines(true, list), p) <==>
              !("/" <= p) || p == "/robots.txt" || IsIndexPath(p, list) || "/policies" <= p || "/sitemap.xml" <= p
  {
    hide Normalize, IsIndexPath, RobotsAllow;
    RobotsFetchIff(p, list);
    if "/" <= p { IndexIsRobotsPage(p, list); }
  }

  lemma IndexIsRobotsPage(p: string, list: seq<string>)
    requires IsAllowlist(list) && p == Normalize(p) && "/" <= p
    ensures RobotsPages(list, p) <==> IsIndexPath(p, list) || "/policies" <= p || "/sitemap.xml" <= p
  {
    hide Normalize;
    if p in list && p != "/" {
      assert Covers(p, p);
    }
    if p != "/" && IsIndexPath(p, list) {
      var a :| a in list && Covers(a, p);
      if "/policies/" <= p { PoliciesPrefix(p); }
    }
  }

  lemma PoliciesPrefix(p: string)
    requires "/policies/" <= p
    ensures "/policies" <= p
  {
    assert "/policies/"[..9] == "/policies";
    assert p[..10] == "/policies/" && p[..9] == p[..10][..9];
  }

  /** Before launch robots may fetch nothing but /robots.txt. */
  lemma NothingBeforeLaunch(p: string, list: seq<string>)
    ensures RobotsAllow(RobotsLines(false, list), p) <==> !("/" <= p) || p == "/robots.txt"
  {
    DisallowLineReads("/");
    PrefixMatches("/", p);
    assert RobotsLines(false, list)[0] == DisallowLine("/");
    assert RuleMatches(DisallowLine("/"), p) <==> "/" <= p;
  }

  // ---------------------------------------------------------------- spellings of a path

  // A normalized path as it may be written: white space around it, one more slash behind it, a query.
  predicate IsSpelling(p: string, n: string, left: string, slash: string, right: string, query: string) {
    && p == left + (n + slash) + right + query && Blank(left) && Blank(right) && Trimmed(n + slash)
    && '?' !in left + (n + slash) + right && (query == "" || query[0] == '?')
    && n != "" && slash in {"", "/"} && (slash == "" ==> n == "/" || n[|n| - 1] != '/')
  }

  predicate IsEmptySpelling(p: string, blank: string, query: string) {
    p == blank + query && Blank(blank) && '?' !in blank && (query == "" || query[0] == '?')
  }

  lemma SpellingNormalizes(p: string, n: string, left: string, slash: string, right: string, query: string)
    requires IsSpelling(p, n, left, slash, right, query)
    ensures Normalize(p) == n
  {
    hide IsSpace, Trim, BeforeQuery;
    var core := n + slash;
    var s := left + core + right;
    QueryDrops(s, query);
    assert Framed(s, left, core, right);
    TrimIsCore(s);
    CoreIsUnique(s, core, Trim(s));
    assert slash == "" ==> core == n;
    assert slash == "/" ==> core[..|core| - 1] == n;
  }

  /** The root is what is empty before its query, and any other text normalizes to what it spells. */
  lemma NormalizeIff(p: string, n: string)
    ensures Normalize(p) == n <==>
              || (exists left, slash, right, query :: IsSpelling(p, n, left, slash, right, query))
              || (n == "/" && exists blank, query :: IsEmptySpelling(p, blank, query))
  {
    if Normalize(p) == n { SpellingExists(p); }
    hide Normalize, IsSpelling, IsEmptySpelling;
    if left, slash, right, query :| IsSpelling(p, n, left, slash, right, query) {
      SpellingNormalizes(p, n, left, slash, right, query);
    }
    if n == "/" {
      if blank, query :| IsEmptySpelling(p, blank, query) { EmptyNormalizes(p, blank, query); }
    }
  }

  lemma EmptyNormalizes(p: string, blank: string, query: string)
    requires IsEmptySpelling(p, blank, query)
    ensures Normalize(p) == "/"
  {
    QueryDrops(blank, query);
    TrimEmptyIff(blank);
    hide IsSpace, Trim, BeforeQuery;
  }

  lemma SpellingExists(p: string)
    ensures var n := Normalize(p);
            || (exists left, slash, right, query :: IsSpelling(p, n, left, slash, right, query))
            || (n == "/" && exists blank, query :: IsEmptySpelling(p, blank, query))
  {
    hide IsSpace, Trim, BeforeQuery;
    var (s, n) := (BeforeQuery(p), Normalize(p));
    var query := QuerySplits(p);
    TrimTrims(s);
    TrimEmptyIff(s);
    var left, right := TrimFrames(s);
    var core := Trim(s);
    if core == "" {
      assert IsEmptySpelling(p, s, query);
    } else {
      var slash := if |core| > 1 && core[|core| - 1] == '/' then "/" else "";
      assert n + slash == core;
      assert IsSpelling(p, n, left, slash, right, query);
    }
  }

  /** The index pages that robots may not fetch are other spellings of listed pages outside the policies,
      with a query or with one more slash behind them. */
  lemma IndexedNotFetchedIff(p: string, list: seq<string>)
    requires IsAllowlist(list) && "/" <= p
    ensures IsIndexPath(p, list) && !RobotsAllow(RobotsLines(true, list), p) <==>
              && Normalize(p) in list && p != Normalize(p)
              && p !in list && p != "/robots.txt" && !("/policies" <= p) && !("/sitemap.xml" <= p)
  {
    hide RobotsAllow, Normalize;
    RobotsFetchIff(p, list);
    if IsIndexPath(p, list) && Normalize(p) !in list {
      var a :| a in list && Covers(a, Normalize(p));
      HubSpelling(p);
    }
    if Normalize(p) in list && Normalize(p) != "/" { assert Covers(Normalize(p), Normalize(p)); }
  }

  lemma FirstOf(s: string, t: string)
    ensures s != "" ==> (s + t)[0] == s[0]
  {
  }

  // A spelling that starts with a slash starts as what it spells.
  lemma HubSpelling(p: string)
    requires "/" <= p && "/policies/" <= Normalize(p)
    ensures "/policies" <= p
  {
    var n := Normalize(p);
    SpellingExists(p);
    hide Normalize;
    PoliciesPrefix(n);
    var left, slash, right, query :| IsSpelling(p, n, left, slash, right, query);
    FirstOf(left, n + slash + right + query);
    assert left + (n + slash) + right + query == left + (n + slash + right + query);
    assert !IsSpace('/');
    assert left == "";
    assert p == n + (slash + right + query);
    assert p[..9] == n[..9] == "/policies";
  }

  lemma AboutIsSpelled()
    ensures Normalize("/about/") == "/about"
  {
    assert !IsSpace('/') && !IsSpace('t');
    assert "" + ("/about" + "/") + "" + "" == "/about/";
    assert IsSpelling("/about/", "/about", "", "/", "", "");
    SpellingNormalizes("/about/", "/about", "", "/", "", "");
  }

  lemma AboutIsListed()
    ensures "/about" in SITEMAP_PATHS && "/about/" !in SITEMAP_PATHS
  {
    assert SITEMAP_PATHS[1] == "/about";
  }

  lemma AboutIsNeither()
    ensures var p := "/about/"; "/" <= p && p != "/robots.txt" && !("/policies" <= p) && !("/sitemap.xml" <= p)
  {
    assert "/about/"[1] == 'a' && "/policies"[1] == 'p' && "/sitemap.xml"[1] == 's';
  }

  /** So /about/ is an index page that robots may not fetch. */
  lemma TrailingSlashIsNotFetched()
    ensures IsIndexPath("/about/", SITEMAP_PATHS) && !RobotsAllow(RobotsLines(true, SITEMAP_PATHS), "/about/")
  {
    ShippedListIsAllowlist();
    AboutIsSpelled();
    AboutIsListed();
    var p := "/about/";
    AboutIsNeither();
    hide Normalize, RobotsAllow, IsAllowlist, IsIndexPath;
    IndexedNotFetchedIff(p, SITEMAP_PATHS);
  }
}
