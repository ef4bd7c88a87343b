/**
 * The pure pieces and the page state of the request-log page (public/js/logs.js):
 * HTML escaping, the body preview, and the pagination and filter handlers that
 * move `currentPage`.
 */
module LogsPage {
  import opened Wrappers

  // ----- Escaping -----

  /** `s.replace(/c/g, rep)`: every occurrence of `c` replaced by `rep`, scanning left to right. */
  function ReplaceAll(s: string, c: char, rep: string): string {
    if s == [] then [] else (if s[0] == c then rep else [s[0]]) + ReplaceAll(s[1..], c, rep)
  }

  /** `escapeHtml`: the four global replacements, `&` first. */
  function EscapeHtml(s: string): string {
    ReplaceAll(ReplaceAll(ReplaceAll(ReplaceAll(s, '&', "&amp;"), '<', "&lt;"), '>', "&gt;"), '"', "&quot;")
  }

  /** What one character becomes in the escaped text. */
  function EscapeChar(c: char): string {
    match c
    case '&' => "&amp;"
    case '<' => "&lt;"
    case '>' => "&gt;"
    case '"' => "&quot;"
    case _ => [c]
  }

  /** Escaping character by character. */
  function EscapeEach(s: string): string {
    if s == [] then [] else EscapeChar(s[0]) + EscapeEach(s[1..])
  }

  /** A global replacement distributes over concatenation. */
  lemma {:induction false} ReplaceAllAppend(a: string, b: string, c: char, rep: string)
    ensures ReplaceAll(a + b, c, rep) == ReplaceAll(a, c, rep) + ReplaceAll(b, c, rep)
  {
    if a != [] {
      assert (a + b)[1..] == a[1..] + b;
      ReplaceAllAppend(a[1..], b, c, rep);
    } else {
      assert a + b == b;
    }
  }

  /** The whole escaping distributes over concatenation. */
  lemma EscapeHtmlAppend(a: string, b: string)
    ensures EscapeHtml(a + b) == EscapeHtml(a) + EscapeHtml(b)
  {
    var a1, b1 := ReplaceAll(a, '&', "&amp;"), ReplaceAll(b, '&', "&amp;");
    ReplaceAllAppend(a, b, '&', "&amp;");
    var a2, b2 := ReplaceAll(a1, '<', "&lt;"), ReplaceAll(b1, '<', "&lt;");
    ReplaceAllAppend(a1, b1, '<', "&lt;");
    var a3, b3 := ReplaceAll(a2, '>', "&gt;"), ReplaceAll(b2, '>', "&gt;");
    ReplaceAllAppend(a2, b2, '>', "&gt;");
    ReplaceAllAppend(a3, b3, '"', "&quot;");
  }

  /** A replacement leaves a string without its character alone. */
  lemma {:induction false} ReplaceAllAbsent(s: string, c: char, rep: string)
    requires c !in s
    ensures ReplaceAll(s, c, rep) == s
  {
    if s != [] {
      ReplaceAllAbsent(s[1..], c, rep);
    }
  }

  /** A replacement on a one-character string. */
  lemma ReplaceAllSingle(c: char, d: char, rep: string)
    ensures ReplaceAll([c], d, rep) == if c == d then rep else [c]
  {
    assert [c][1..] == [];
  }

  /** The last three passes leave `&amp;` alone. */
  lemma EscapeAmp()
    ensures EscapeHtml("&") == "&amp;"
  {
    var amp := "&amp;";
    calc {
      EscapeHtml("&");
    == { ReplaceAllSingle('&', '&', amp); }
      ReplaceAll(ReplaceAll(ReplaceAll(amp, '<', "&lt;"), '>', "&gt;"), '"', "&quot;");
    == { ReplaceAllAbsent(amp, '<', "&lt;"); }
      ReplaceAll(ReplaceAll(amp, '>', "&gt;"), '"', "&quot;");
    == { ReplaceAllAbsent(amp, '>', "&gt;"); }
      ReplaceAll(amp, '"', "&quot;");
    == { ReplaceAllAbsent(amp, '"', "&quot;"); }
      amp;
    }
  }

  lemma EscapeLt()
    ensures EscapeHtml("<") == "&lt;"
  {
    ReplaceAllSingle('<', '&', "&amp;");
    ReplaceAllSingle('<', '<', "&lt;");
    ReplaceAllAbsent("&lt;", '>', "&gt;");
    ReplaceAllAbsent("&lt;", '"', "&quot;");
  }

  lemma EscapeGt()
    ensures EscapeHtml(">") == "&gt;"
  {
    ReplaceAllSingle('>', '&', "&amp;");
    ReplaceAllSingle('>', '<', "&lt;");
    ReplaceAllSingle('>', '>', "&gt;");
    ReplaceAllAbsent("&gt;", '"', "&quot;");
  }

  lemma EscapeQuot()
    ensures EscapeHtml("\"") == "&quot;"
  {
    ReplaceAllSingle('"', '&', "&amp;");
    ReplaceAllSingle('"', '<', "&lt;");
    ReplaceAllSingle('"', '>', "&gt;");
    ReplaceAllSingle('"', '"', "&quot;");
  }

  /** A character without an entity passes all four replacements unchanged. */
  lemma EscapePlain(c: char)
    requires c != '&' && c != '<' && c != '>' && c != '"'
    ensures EscapeHtml([c]) == [c]
  {
    ReplaceAllSingle(c, '&', "&amp;");
    ReplaceAllSingle(c, '<', "&lt;");
    ReplaceAllSingle(c, '>', "&gt;");
    ReplaceAllSingle(c, '"', "&quot;");
  }

  /** On one character the four passes give exactly that character's entity: no pass touches an earlier pass's output. */
  lemma EscapeOne(c: char)
    ensures EscapeHtml([c]) == EscapeChar(c)
  {
    if c == '&' {
      EscapeAmp();
    } else if c == '<' {
      EscapeLt();
    } else if c == '>' {
      EscapeGt();
    } else if c == '"' {
      EscapeQuot();
    } else {
      EscapePlain(c);
    }
  }

  /** Replacing `&` first makes the four passes equal to escaping each character on its own. */
  lemma {:induction false} EscapeHtmlIsPerCharacter(s: string)
    ensures EscapeHtml(s) == EscapeEach(s)
  {
    if s != [] {
      assert s == [s[0]] + s[1..];
      EscapeHtmlAppend([s[0]], s[1..]);
      EscapeOne(s[0]);
      EscapeHtmlIsPerCharacter(s[1..]);
    }
  }

  /** `t` starts with one of the four entities. */
  predicate StartsEntity(t: string) {
    "&amp;" <= t || "&lt;" <= t || "&gt;" <= t || "&quot;" <= t
  }

  /** The escaped text is safe: no `<`, `>` or `"`, and every `&` opens an entity. */
  predicate IsEscaped(t: string) {
    forall i :: 0 <= i < |t| ==> t[i] != '<' && t[i] != '>' && t[i] != '"' && (t[i] == '&' ==> StartsEntity(t[i..]))
  }

  /** Putting an entity or a plain character in front of escaped text keeps it escaped. */
  lemma EscapedPrepend(c: char, rest: string)
    requires IsEscaped(rest)
    ensures IsEscaped(EscapeChar(c) + rest)
  {
    var e := EscapeChar(c);
    var t := e + rest;
    forall i | 0 <= i < |t|
      ensures t[i] != '<' && t[i] != '>' && t[i] != '"' && (t[i] == '&' ==> StartsEntity(t[i..]))
    {
      if i < |e| {
        if i == 0 && c == '&' {
          assert "&amp;" <= t[i..];
        } else if i == 0 && c == '<' {
          assert "&lt;" <= t[i..];
        } else if i == 0 && c == '>' {
          assert "&gt;" <= t[i..];
        } else if i == 0 && c == '"' {
          assert "&quot;" <= t[i..];
        }
      } else {
        assert t[i] == rest[i - |e|];
        assert t[i..] == rest[i - |e|..];
      }
    }
  }

  /** The output of `escapeHtml` contains no `<`, `>` or `"`, and each `&` in it begins `&amp;`, `&lt;`, `&gt;` or `&quot;`. */
  lemma {:induction false} EscapeHtmlIsSafe(s: string)
    ensures IsEscaped(EscapeHtml(s))
  {
    EscapeHtmlIsPerCharacter(s);
    EscapedEach(s);
  }

  lemma {:induction false} EscapedEach(s: string)
    ensures IsEscaped(EscapeEach(s))
  {
    if s != [] {
      EscapedEach(s[1..]);
      EscapedPrepend(s[0], EscapeEach(s[1..]));
    }
  }

  /** Reading the entities back, left to right. */
  function Unescape(t: string): string
    decreases |t|
  {
    if t == [] then []
    else if "&amp;" <= t then "&" + Unescape(t[5..])
    else if "&lt;" <= t then "<" + Unescape(t[4..])
    else if "&gt;" <= t then ">" + Unescape(t[4..])
    else if "&quot;" <= t then "\"" + Unescape(t[6..])
    else [t[0]] + Unescape(t[1..])
  }

  /** Unescaping an escaped character in front of anything yields that character first. */
  lemma UnescapeChar(c: char, rest: string)
    ensures Unescape(EscapeChar(c) + rest) == [c] + Unescape(rest)
  {
    var t := EscapeChar(c) + rest;
    match c
    case '&' => assert "&amp;" <= t && t[5..] == rest;
    case '<' => assert t[1] == 'l' && "&lt;" <= t && t[4..] == rest;
    case '>' => assert t[1] == 'g' && "&gt;" <= t && t[4..] == rest;
    case '"' => assert t[1] == 'q' && "&quot;" <= t && t[6..] == rest;
    case _ => assert t[0] == c && t[1..] == rest;
  }

  /** Escaping loses nothing: unescaping recovers the input, so different strings never escape alike. */
  lemma {:induction false} UnescapeRecovers(s: string)
    ensures Unescape(EscapeHtml(s)) == s
  {
    EscapeHtmlIsPerCharacter(s);
    UnescapeEach(s);
  }

  lemma {:induction false} UnescapeEach(s: string)
    ensures Unescape(EscapeEach(s)) == s
  {
    if s != [] {
      UnescapeChar(s[0], EscapeEach(s[1..]));
      UnescapeEach(s[1..]);
    }
  }

  /** Escaping is injective. */
  lemma EscapeHtmlInjective(a: string, b: string)
    requires EscapeHtml(a) == EscapeHtml(b)
    ensures a == b
  {
    UnescapeRecovers(a);
    UnescapeRecovers(b);
  }

  // ----- Body preview -----

  /** The horizontal ellipsis the preview ends with. */
  const Ellipsis := '…'

  /** The preview text: at most 80 characters as they are, otherwise the first 77 and an ellipsis. */
  function Shorten(s: string): (r: string)
    ensures |s| <= 80 ==> r == s
    ensures |s| > 80 ==> |r| == 78 && r[..77] == s[..77] && r[77] == Ellipsis
  {
    if |s| > 80 then s[..77] + [Ellipsis] else s
  }

  /** The placeholder cell for a missing body. */
  const EmptyBody := "<span class=\"body-empty\">—</span>"

  /** The opening tag of a preview cell; a body that parsed as JSON gets the "Click to expand" tooltip. */
  function PreviewOpen(expandable: bool): string {
    if expandable then "<span class=\"body-preview\" title=\"Click to expand\">" else "<span class=\"body-preview\">"
  }

  /**
   * `formatBody`: `raw` is the log's body (None for null or undefined);
   * `pretty` is `JSON.stringify(JSON.parse(raw), null, 2)`, None when parsing throws.
   */
  function FormatBody(raw: Option<string>, pretty: Option<string>): string {
    if raw.None? || raw.value == "" then EmptyBody
    else match pretty
      case Some(p) => PreviewOpen(true) + EscapeHtml(Shorten(p)) + "</span>"
      case None => PreviewOpen(false) + EscapeHtml(Shorten(raw.value)) + "</span>"
  }

  /**
   * A missing or empty body gives the placeholder. Any other body gives a preview
   * span, with the tooltip exactly when the body is JSON, whose content is safe
   * markup that reads back as the shortened pretty-printed body, or the shortened
   * raw body when it is not JSON.
   */
  lemma FormatBodyCases(raw: Option<string>, pretty: Option<string>)
    ensures raw.None? || raw == Some("") ==> FormatBody(raw, pretty) == EmptyBody
    ensures raw.Some? && raw.value != "" ==>
              exists text :: FormatBody(raw, pretty) == PreviewOpen(pretty.Some?) + text + "</span>"
                             && IsEscaped(text)
                             && Unescape(text) == Shorten(if pretty.Some? then pretty.value else raw.value)
  {
    if raw.Some? && raw.value != "" {
      var shown := if pretty.Some? then pretty.value else raw.value;
      var text := EscapeHtml(Shorten(shown));
      EscapeHtmlIsSafe(Shorten(shown));
      UnescapeRecovers(Shorten(shown));
      assert FormatBody(raw, pretty) == PreviewOpen(pretty.Some?) + text + "</span>";
    }
  }

  // ----- Pagination and filters -----

  /** A page `goToPage` accepts. */
  predicate InRange(page: int, totalPages: int) {
    1 <= page <= totalPages
  }

  /** What `renderLogs` does to the pagination bar. */
  datatype Pagination = Hidden | Shown(page: int, pages: int, prevDisabled: bool, nextDisabled: bool)

  function PaginationFor(page: int, pages: int): Pagination {
    if pages > 1 then Shown(page, pages, page <= 1, page >= pages) else Hidden
  }

  /**
   * For a page the server reports within range, the bar is shown exactly when
   * there is more than one page, and a button is disabled exactly when
   * `goToPage` would refuse the page it leads to.
   */
  lemma ButtonsMatchGoToPage(page: int, pages: int)
    requires 1 <= page <= pages
    ensures PaginationFor(page, pages).Hidden? <==> pages <= 1
    ensures pages > 1 ==> PaginationFor(page, pages).prevDisabled == !InRange(page - 1, pages)
    ensures pages > 1 ==> PaginationFor(page, pages).nextDisabled == !InRange(page + 1, pages)
  {
  }

  /** The filters the page reads and can change. */
  datatype Filter = ActionFilter | MethodFilter | LimitSelect

  /** The module-level page state, the filter inputs, and the number of `loadLogs` calls issued. */
  class LogsState {
    var currentPage: int
    var totalPages: int
    var search: string
    var action: string
    var httpMethod: string
    var limit: string
    /** A search keystroke whose debounce timer has not fired yet. */
    var searchPending: bool
    var loads: nat

    /** The state when the script starts: page 1 of 1, no filters. */
    constructor (limit: string)
      ensures currentPage == 1 && totalPages == 1
      ensures search == "" && action == "" && httpMethod == "" && this.limit == limit
      ensures !searchPending && loads == 0
    {
      currentPage, totalPages := 1, 1;
      search, action, httpMethod, this.limit := "", "", "", limit;
      searchPending, loads := false, 0;
    }

    /** `goToPage`: an out-of-range page is ignored; otherwise it becomes current and the logs reload. */
    method GoToPage(page: int)
      modifies this`currentPage, this`loads
      ensures !InRange(page, totalPages) ==> currentPage == old(currentPage) && loads == old(loads)
      ensures InRange(page, totalPages) ==> currentPage == page && loads == old(loads) + 1
    {
      if page < 1 || page > totalPages {
        return;
      }
      currentPage := page;
      loads := loads + 1;
    }

    /** `clearFilters`: the three filters emptied, back to page 1, reload. */
    method ClearFilters()
      modifies this`search, this`action, this`httpMethod, this`currentPage, this`loads
      ensures search == "" && action == "" && httpMethod == ""
      ensures currentPage == 1 && loads == old(loads) + 1
    {
      search, action, httpMethod := "", "", "";
      currentPage := 1;
      loads := loads + 1;
    }

    /** A `change` event on the action, method or limit select: back to page 1, reload. */
    method ChangeFilter(which: Filter, value: string)
      modifies this`action, this`httpMethod, this`limit, this`currentPage, this`loads
      ensures which == ActionFilter ==> action == value && httpMethod == old(httpMethod) && limit == old(limit)
      ensures which == MethodFilter ==> httpMethod == value && action == old(action) && limit == old(limit)
      ensures which == LimitSelect ==> limit == value && action == old(action) && httpMethod == old(httpMethod)
      ensures currentPage == 1 && loads == old(loads) + 1
    {
      match which {
        case ActionFilter => action := value;
        case MethodFilter => httpMethod := value;
        case LimitSelect => limit := value;
      }
      currentPage := 1;
      loads := loads + 1;
    }

    /** An `input` event on the search box: the earlier timer is cleared and a new one started. */
    method SearchInput(value: string)
      modifies this`search, this`searchPending
      ensures search == value && searchPending
    {
      search := value;
      searchPending := true;
    }

    /** The debounce timer fires: back to page 1, reload. */
    method SearchDebounceFires()
      requires searchPending
      modifies this`searchPending, this`currentPage, this`loads
      ensures !searchPending && currentPage == 1 && loads == old(loads) + 1
    {
      searchPending := false;
      currentPage := 1;
      loads := loads + 1;
    }

    /** `clearLogs` after the DELETE answered with `status`: a 401 leaves the page alone, anything else returns to page 1 and reloads. */
    method LogsCleared(status: int)
      modifies this`currentPage, this`loads
      ensures status == 401 ==> currentPage == old(currentPage) && loads == old(loads)
      ensures status != 401 ==> currentPage == 1 && loads == old(loads) + 1
    {
      if status == 401 {
        return;
      }
      currentPage := 1;
      loads := loads + 1;
    }

    /** `renderLogs`: adopt the server's page and page count and lay out the pagination bar. */
    method RenderLogs(page: int, pages: int) returns (bar: Pagination)
      modifies this`currentPage, this`totalPages
      ensures currentPage == page && totalPages == pages
      ensures bar == PaginationFor(page, pages)
    {
      currentPage := page;
      totalPages := pages;
      if pages > 1 {
        bar := Shown(page, pages, page <= 1, page >= pages);
      } else {
        bar := Hidden;
      }
    }
  }
}
