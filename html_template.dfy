/**
 * The page shell every generated page is poured into: a fixed HTML
 * document with the language, title, build version, style sheet, extra head
 * elements, navigation, content, footer and extra scripts filled in.
 */
module HtmlTemplate {
  import opened Wrappers
  import opened Strings
  import I18n

  /** The parts of a page (`HtmlTemplate`); `header` and `scripts` are optional. */
  datatype Template = Template(title: string, header: Option<string>, nav: string,
                               content: string, footer: string, scripts: Option<string>)

  /** The inline scripts of the shell: one in the head, one at the top of
      the body and one at its end. */
  datatype Theme = Theme(head: string, sync: string, toggle: string)

  /** What the shell takes from outside the page: the configured language,
      the build time stamp, the style sheet and the inline scripts. */
  datatype Shell = Shell(lang: Option<string>, buildVersion: nat, css: string, theme: Theme)

  const NoHeader: string := "<!-- no additional head elements given -->"
  const NoScripts: string := "<!-- no additional scripts given -->"

  /** The opening of the document, up to the language. */
  const DocOpen: string := "<!DOCTYPE html>\n<html lang=\""

  /** The end of the document. */
  const DocClose: string := "\n  </body>\n</html>\n"

  /** The script in the head that applies the saved colour mode before the
      page is drawn. */
  const ThemeHeadScript: string :=
    "    <script>\n"
    + "      // Apply saved theme immediately to prevent flicker\n"
    + "      (function() {\n"
    + "        const savedMode = localStorage.getItem('colorMode');\n"
    + "        if (savedMode) {\n"
    + "          document.documentElement.setAttribute('data-color-mode', savedMode);\n"
    + "        }\n"
    + "      })();\n"
    + "    </script>\n"

  /** The script at the top of the body that copies the colour mode to it. */
  const ThemeSyncScript: string :=
    "  <script>\n"
    + "    // Sync body with documentElement immediately\n"
    + "    if (document.documentElement.hasAttribute('data-color-mode')) {\n"
    + "      document.body.setAttribute('data-color-mode', document.documentElement.getAttribute('data-color-mode'));\n"
    + "    }\n"
    + "  </script>\n"

  /** The script at the end of the body that runs the dark-mode toggle. */
  const ThemeToggleScript: string :=
    "    <script>\n"
    + "      document.addEventListener(\"DOMContentLoaded\", function() {\n"
    + "        const body = document.body;\n"
    + "        const darkModeToggle = document.getElementById(\"dark-mode-toggle\");\n"
    + "          \n"
    + "        // Apply saved preference (already set in head, now sync with body)\n"
    + "        const savedMode = localStorage.getItem('colorMode');\n"
    + "        if (savedMode) {\n"
    + "          body.setAttribute(\"data-color-mode\", savedMode);\n"
    + "        }\n"
    + "          \n"
    + "        function isDarkMode() {\n"
    + "          const colorMode = body.getAttribute(\"data-color-mode\");\n"
    + "          if (colorMode === \"dark\") return true;\n"
    + "          if (colorMode === \"light\") return false;\n"
    + "          // auto mode - check system preference\n"
    + "          return window.matchMedia && window.matchMedia('(prefers-color-scheme: dark)').matches;\n"
    + "        }\n"
    + "          \n"
    + "        function updateToggleText() {\n"
    + "          darkModeToggle.textContent = isDarkMode() ? \"Light Mode\" : \"Dark Mode\";\n"
    + "        }\n"
    + "          \n"
    + "        darkModeToggle.addEventListener(\"click\", function(e) {\n"
    + "          e.preventDefault();\n"
    + "          const newMode = isDarkMode() ? \"light\" : \"dark\";\n"
    + "          body.setAttribute(\"data-color-mode\", newMode);\n"
    + "          localStorage.setItem('colorMode', newMode);\n"
    + "          updateToggleText();\n"
    + "        });\n"
    + "          \n"
    + "        updateToggleText();\n"
    + "      });\n"
    + "    </script>\n"

  /** The scripts that apply and toggle the saved colour mode. */
  const ColourModeTheme: Theme := Theme(ThemeHeadScript, ThemeSyncScript, ThemeToggleScript)

  /** The page's language attribute: the configured language, else English. */
  function PageLang(shell: Shell): string
  {
    I18n.DefaultLang(shell.lang)
  }

  /** The `<title>` element. */
  function TitleElement(title: string): string
  {
    "<title>" + title + "</title>"
  }

  /** The markup from the end of the title to the build version. */
  const Meta: string :=
    "\n    <meta charset=\"UTF-8\">\n    <meta name=\"viewport\" content=\"width=device-width, initial-scale=1.0\">\n    <meta name=\"build-version\" content=\""

  /** The markup from the build version to the style sheet. */
  const StyleOpen: string :=
    "    <style>\n      main {\n        max-width: 920px;\n        margin: 2rem auto;\n      }\n      "

  /** The markup from the extra head elements to the body's first script. */
  const BodyOpen: string :=
    "\n  </head>\n  <body data-color-mode=\"auto\" data-light-theme=\"light\" data-dark-theme=\"dark\" class=\"markdown-body\">\n"

  /** The markup from the body's first script to the navigation links. */
  const NavOpen: string :=
    "  <main>\n  <nav style=\"text-align: right; margin-top: 20px; margin-bottom: 20px;\">\n    "

  /** The document type and the opening `html` tag with the language. */
  function Opening(shell: Shell): string
  {
    DocOpen + PageLang(shell) + "\">"
  }

  /** The extra head elements, or the comment that stands for them. */
  function HeaderOf(t: Template): string
  {
    t.header.GetOr(NoHeader)
  }

  /** The extra scripts, or the comment that stands for them. */
  function ScriptsOf(t: Template): string
  {
    t.scripts.GetOr(NoScripts)
  }

  /** The head from the end of the title to the extra head elements. */
  function BeforeHeader(shell: Shell): string
  {
    Meta + NatToString(shell.buildVersion) + "\">\n" + shell.theme.head
    + StyleOpen + shell.css + "\n    </style>\n    "
  }

  /** The fixed text between the extra head elements and the navigation. */
  function HeadAfterHeader(shell: Shell): string
  {
    BodyOpen + shell.theme.sync + NavOpen
  }

  const NavClose: string := "\n  </nav>\n    "

  /** The white space around the rule between the content and the footer. */
  const RuleSpace: string := "\n    "

  /** The end of `main` and the toggle script. */
  function TailOpen(shell: Shell): string
  {
    "\n    </main>\n" + shell.theme.toggle + "    "
  }

  /** The text of a sequence of pieces, one after the other. */
  function Assemble(pieces: seq<string>): string
    decreases |pieces|
  {
    if pieces == [] then "" else pieces[0] + Assemble(pieces[1..])
  }

  /** The pieces of a page, in document order. */
  function Pieces(t: Template, shell: Shell): (p: seq<string>)
    ensures |p| == PieceCount
  {
    [Opening(shell), "\n  <head>\n    ", TitleElement(t.title), BeforeHeader(shell), HeaderOf(t),
     HeadAfterHeader(shell), t.nav, NavClose, t.content, RuleSpace, "<hr>", RuleSpace, t.footer,
     TailOpen(shell), ScriptsOf(t), DocClose]
  }

  const PieceCount: nat := 16

  /** `htmlTemplate(t)`, the language, time stamp and style sheet coming from `shell`. */
  function Page(t: Template, shell: Shell): (r: string)
  {
    Assemble(Pieces(t, shell))
  }

  lemma {:induction false} AssembleAppend(a: seq<string>, b: seq<string>)
    ensures Assemble(a + b) == Assemble(a) + Assemble(b)
    decreases |a|
  {
    if a == [] {
      assert a + b == b;
    } else {
      assert (a + b)[1..] == a[1..] + b;
      AssembleAppend(a[1..], b);
    }
  }

  /** A page is what comes before a piece, the piece, and what comes after it. */
  lemma AssembleSplit(pieces: seq<string>, i: nat)
    requires i < |pieces|
    ensures Assemble(pieces) == Assemble(pieces[..i]) + pieces[i] + Assemble(pieces[i + 1..])
  {
    assert pieces == pieces[..i] + pieces[i..];
    AssembleAppend(pieces[..i], pieces[i..]);
    assert pieces[i..][1..] == pieces[i + 1..];
  }

  /** Every piece occurs, and two pieces occur in their order. */
  lemma AssembleOrder(pieces: seq<string>, i: nat, j: nat)
    requires i < j < |pieces|
    ensures Before(Assemble(pieces), pieces[i], pieces[j])
  {
    var front := pieces[..j];
    AssembleSplit(pieces, j);
    AssembleSplit(front, i);
    assert front[..i] == pieces[..i] && front[i] == pieces[i] && front[i + 1..] == pieces[i + 1..j];
    BeforePieces(Assemble(pieces[..i]), pieces[i], Assemble(pieces[i + 1..j]), pieces[j],
                 Assemble(pieces[j + 1..]));
  }

  lemma AssembleEach(pieces: seq<string>, i: nat)
    requires i < |pieces|
    ensures Contains(Assemble(pieces), pieces[i])
  {
    AssembleSplit(pieces, i);
    ContainsPiece(Assemble(pieces[..i]), pieces[i], Assemble(pieces[i + 1..]));
  }

  /** An assembled text starts with its first piece and ends with its last. */
  lemma AssembleEnds(pieces: seq<string>)
    requires pieces != []
    ensures StartsWith(Assemble(pieces), pieces[0])
    ensures EndsWith(Assemble(pieces), pieces[|pieces| - 1])
  {
    AssembleStarts(pieces);
    AssembleFinishes(pieces);
  }

  lemma AssembleStarts(pieces: seq<string>)
    requires pieces != []
    ensures StartsWith(Assemble(pieces), pieces[0])
  {
    assert Assemble(pieces) == pieces[0] + Assemble(pieces[1..]);
    ConcatEnds(pieces[0], Assemble(pieces[1..]));
  }

  lemma AssembleFinishes(pieces: seq<string>)
    requires pieces != []
    ensures EndsWith(Assemble(pieces), pieces[|pieces| - 1])
  {
    var n := |pieces| - 1;
    AssembleSplit(pieces, n);
    assert pieces[n + 1..] == [];
    assert Assemble(pieces) == Assemble(pieces[..n]) + pieces[n];
    ConcatEnds(Assemble(pieces[..n]), pieces[n]);
  }

  /** The page starts with the document type and the language and ends the
      document. */
  lemma PageEnds(t: Template, shell: Shell)
    ensures StartsWith(Page(t, shell), Opening(shell))
    ensures EndsWith(Page(t, shell), DocClose)
  {
    AssembleEnds(Pieces(t, shell));
  }

  /** The title appears as the page's `<title>`. */
  lemma PageTitle(t: Template, shell: Shell)
    ensures Contains(Page(t, shell), TitleElement(t.title))
  {
    AssembleEach(Pieces(t, shell), 2);
  }

  /** The navigation, the content, the rule and the footer appear verbatim
      and in that order. */
  lemma PageOrder(t: Template, shell: Shell)
    ensures Before(Page(t, shell), t.nav, t.content)
    ensures Before(Page(t, shell), t.content, "<hr>")
    ensures Before(Page(t, shell), "<hr>", t.footer)
    ensures Before(Page(t, shell), t.content, t.footer)
  {
    var p := Pieces(t, shell);
    AssembleOrder(p, 6, 8);
    AssembleOrder(p, 8, 10);
    AssembleOrder(p, 10, 12);
    AssembleOrder(p, 8, 12);
  }

  /** Missing extra head elements and scripts leave a comment in their place;
      given ones appear verbatim. */
  lemma PageDefaults(t: Template, shell: Shell)
    ensures t.header.None? ==> Contains(Page(t, shell), NoHeader)
    ensures t.scripts.None? ==> Contains(Page(t, shell), NoScripts)
    ensures t.header.Some? ==> Contains(Page(t, shell), t.header.value)
    ensures t.scripts.Some? ==> Contains(Page(t, shell), t.scripts.value)
  {
    AssembleEach(Pieces(t, shell), 4);
    AssembleEach(Pieces(t, shell), 14);
  }

  /** Without a configured language the page says it is in English. */
  lemma PageLangDefault(t: Template, shell: Shell)
    requires shell.lang.None?
    ensures StartsWith(Page(t, shell), "<!DOCTYPE html>\n<html lang=\"en\">")
  {
    PageEnds(t, shell);
    assert Opening(shell) == "<!DOCTYPE html>\n<html lang=\"en\">";
  }
}
