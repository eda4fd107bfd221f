/**
 * Opening a URL in a browser: the platform is reduced to darwin, win32 or
 * "other", a shell command is composed for it and the URL is appended in
 * double quotes with its own double quotes escaped. Running the command is
 * an oracle: `execError` is what the shell reported.
 */
module Browser {
  import opened Wrappers
  import opened Js

  datatype Platform = Darwin | Win32 | Other

  /** `process.platform`, every platform but darwin and win32 counting as "other". */
  function Normalize(platform: string): (p: Platform)
    ensures p == Darwin <==> platform == "darwin"
    ensures p == Win32 <==> platform == "win32"
    ensures p == Other <==> platform != "darwin" && platform != "win32"
  {
    if platform == "darwin" then Darwin else if platform == "win32" then Win32 else Other
  }

  /** `s.replace(/"/g, '\\"')`: a backslash before every double quote. */
  function Escape(s: string): string {
    if s == [] then []
    else (if s[0] == '"' then ['\\', '"'] else [s[0]]) + Escape(s[1..])
  }

  /** `escape(s)`: a falsy value (undefined or "") is returned as it is. */
  function EscapeOpt(s: Option<string>): (r: Option<string>)
    ensures Named(s) <==> Named(r)
  {
    if Named(s) then Some(Escape(s.value)) else s
  }

  function Quotes(s: string): nat {
    if s == [] then 0 else (if s[0] == '"' then 1 else 0) + Quotes(s[1..])
  }

  /** Escaping adds exactly one character per double quote. */
  lemma {:induction false} EscapeLength(s: string)
    ensures |Escape(s)| == |s| + Quotes(s)
    decreases |s|
  {
    if s != [] {
      EscapeLength(s[1..]);
    }
  }

  /** Reading `\"` back as `"`; every other character stands for itself. */
  function Unescape(s: string): string
    decreases |s|
  {
    if s == [] then []
    else if |s| >= 2 && s[0] == '\\' && s[1] == '"' then ['"'] + Unescape(s[2..])
    else [s[0]] + Unescape(s[1..])
  }

  lemma EscapeHead(s: string)
    ensures Escape(s) == [] || Escape(s)[0] != '"'
  {
  }

  /** The escaped text reads back as the original: escaping loses nothing and changes no other character. */
  lemma {:induction false} UnescapeEscape(s: string)
    ensures Unescape(Escape(s)) == s
    decreases |s|
  {
    if s != [] {
      UnescapeEscape(s[1..]);
      EscapeHead(s[1..]);
      var e := Escape(s);
      if s[0] == '"' {
        assert e == ['\\', '"'] + Escape(s[1..]);
        assert e[2..] == Escape(s[1..]);
      } else {
        assert e == [s[0]] + Escape(s[1..]);
        assert e[1..] == Escape(s[1..]);
      }
    }
  }

  /** In the escaped text every double quote comes right after a backslash. */
  lemma {:induction false} EscapedQuotesPreceded(s: string)
    ensures forall i :: 0 <= i < |Escape(s)| && Escape(s)[i] == '"' ==> i > 0 && Escape(s)[i - 1] == '\\'
    decreases |s|
  {
    if s != [] {
      EscapedQuotesPreceded(s[1..]);
      EscapeHead(s[1..]);
      var head: string := if s[0] == '"' then ['\\', '"'] else [s[0]];
      var e := Escape(s);
      assert e == head + Escape(s[1..]);
      forall i | 0 <= i < |e| && e[i] == '"' ensures i > 0 && e[i - 1] == '\\' {
        if i >= |head| {
          assert e[i] == Escape(s[1..])[i - |head|];
          if i > |head| {
            assert e[i - 1] == Escape(s[1..])[i - 1 - |head|];
          }
        }
      }
    }
  }

  /** `open(command, url)`: the command line handed to the shell. */
  function CommandLine(command: string, url: string): string {
    command + " \"" + Escape(url) + "\""
  }

  /**
   * What opening a URL did: the shell command run (None when nothing ran) and
   * the callback (None when it is never called, else the error it got).
   */
  datatype OpenOutcome = OpenOutcome(executed: Option<string>, callback: Option<Option<string>>)

  /**
   * `platformOpen[platform](url, cb)` with `configBrowser` from the
   * configuration, escaped once when the module loads.
   */
  function Open(platform: Platform, configBrowser: Option<string>, url: string, execError: Option<string>): (r: OpenOutcome)
    ensures platform != Other ==> r.executed.Some? && r.callback == Some(execError)
    ensures platform == Other ==> (r.executed.Some? <==> Named(configBrowser))
    ensures platform == Other && !Named(configBrowser) ==> r.callback == Some(Some("must specify browser in config"))
    ensures platform == Other && Named(configBrowser) ==>
      r.executed == Some(CommandLine(Escape(configBrowser.value), url)) && r.callback.None?
    ensures r.executed.Some? ==> exists command :: r.executed.value == CommandLine(command, url)
  {
    var browser := EscapeOpt(configBrowser);
    match platform
    case Darwin =>
      var command := if Named(browser) then "open -a " + browser.value else "open";
      OpenOutcome(Some(CommandLine(command, url)), Some(execError))
    case Win32 =>
      var command := if Named(browser) then "start \"\" \"" + browser.value + "\"" else "start \"\"";
      OpenOutcome(Some(CommandLine(command, url)), Some(execError))
    case Other =>
      if Named(browser) then OpenOutcome(Some(CommandLine(browser.value, url)), None)
      else OpenOutcome(None, Some(Some("must specify browser in config")))
  }

  /** The darwin, win32 and other commands for a configured browser, and the darwin and win32 commands for none. */
  lemma PlatformCommands(browser: string, url: string, execError: Option<string>)
    requires browser != ""
    ensures Open(Darwin, Some(browser), url, execError).executed == Some(CommandLine("open -a " + Escape(browser), url))
    ensures Open(Darwin, None, url, execError).executed == Some(CommandLine("open", url))
    ensures Open(Win32, Some(browser), url, execError).executed == Some(CommandLine("start \"\" \"" + Escape(browser) + "\"", url))
    ensures Open(Win32, None, url, execError).executed == Some(CommandLine("start \"\"", url))
    ensures Open(Other, Some(browser), url, execError).executed == Some(CommandLine(Escape(browser), url))
  {
  }

  /** The URL goes to the shell inside double quotes that its own quotes cannot close, and reads back unchanged. */
  lemma QuotedUrl(command: string, url: string)
    ensures var line := CommandLine(command, url);
      line[..|command| + 2] == command + " \"" && line[|line| - 1] == '"'
      && Unescape(line[|command| + 2..|line| - 1]) == url
  {
    var line := CommandLine(command, url);
    assert line[|command| + 2..|line| - 1] == Escape(url);
    UnescapeEscape(url);
  }
}
