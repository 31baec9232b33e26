/**
 * What the generator reads from outside its own code: the four environment
 * variables, the blog's readable text files, the Markdown renderer, the two
 * front-matter parsers, the navigation dictionary, the stylesheet and the
 * build version of the page shell, the colour-mode scripts, and the JSX
 * page components.
 */
module Environment {
  import opened Wrappers
  import opened FrontMatter
  import opened I18n
  import opened IngestFiles
  import opened Posts
  import opened HtmlTemplate

  datatype Env = Env(
    /** `DENO_QUICKBLOG_LANG`. */
    lang: Option<string>,
    /** `DENO_QUICKBLOG_HIDE_FOOTER`. */
    hideFooter: Option<string>,
    /** `DENO_QUICKBLOG_TITLE_MAX_LENGTH`, as `parseInt` reads it when it is set and non-empty. */
    titleMaxLength: Option<nat>,
    /** `BASE_URL`. */
    baseUrl: Option<string>,
    /** The readable text files, by path from the blog's root. */
    files: map<string, string>,
    /** The Markdown renderer: `render(markdown, { baseUrl })`. */
    render: (string, string) -> string,
    /** `extractYaml` and `extractToml`; `None` where they throw. */
    yaml: string -> Option<Parsed>,
    toml: string -> Option<Parsed>,
    /** The navigation dictionary the blog ships. */
    dictionary: Dictionary,
    /** `Date.now()` as the stylesheet version, and the stylesheet. */
    buildVersion: nat,
    css: string,
    /** The colour-mode scripts of the page shell; the blog ships `ColourModeTheme`. */
    theme: Theme,
    /** A JSX page module at a path, rendered to HTML for the given posts. */
    jsx: (string, seq<PostInfo>) -> string)

  /** What `Deno.statSync` reports for a path that exists; a path missing
      from a stat map is one where it throws. */
  datatype Stat = Stat(isFile: bool, isDirectory: bool)

  /** The shipped dictionary has English labels. */
  predicate Valid(env: Env) {
    English in env.dictionary
  }

  function BaseUrl(env: Env): string {
    env.baseUrl.GetOr("")
  }

  /** `render(markdown, { baseUrl: Deno.env.get("BASE_URL") ?? "" })`. */
  function Render(env: Env, markdown: string): string {
    env.render(markdown, BaseUrl(env))
  }

  /** The fallback title's length: the setting, else 40. */
  function MaxLength(env: Env): nat {
    env.titleMaxLength.GetOr(DefaultTitleMaxLength)
  }

  /** `readContentAndFrontMatter(path)` in this environment. */
  function Read(env: Env, path: string): Extracted {
    ContentAndFrontMatter(env.files, path, env.yaml, env.toml, MaxLength(env))
  }

  /** `i18n()`: the labels of the configured language. */
  function NavLabels(env: Env): Labels
    requires Valid(env)
  {
    Translate(DefaultLang(env.lang), env.dictionary)
  }

  /** The page shell's parameters. */
  function ShellOf(env: Env): Shell {
    Shell(env.lang, env.buildVersion, env.css, env.theme)
  }
}
