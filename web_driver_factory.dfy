/** WebDriverFactory: which browser to start and with which options. The
    browser name and the headless flag come from configuration; the options
    object is built in place and handed to the browser's driver
    constructor, which is not modelled. */
module WebDriverFactory {
  import opened Wrappers
  import opened Strings
  import opened ConfigManager

  datatype BrowserKind = Chrome | Edge | Firefox

  /** Selenium's PageLoadStrategy: NORMAL, EAGER, NONE. */
  datatype PageLoadStrategy = Normal | Eager | NoWait

  /** ChromeOptions, EdgeOptions or FirefoxOptions. */
  class Options {
    const browser: BrowserKind
    var pageLoadStrategy: Option<PageLoadStrategy>
    var arguments: seq<string>

    constructor (browser: BrowserKind)
      ensures this.browser == browser && pageLoadStrategy == None && arguments == []
    {
      this.browser := browser;
      pageLoadStrategy := None;
      arguments := [];
    }

    method SetPageLoadStrategy(strategy: PageLoadStrategy)
      modifies this
      ensures pageLoadStrategy == Some(strategy) && arguments == old(arguments)
    {
      pageLoadStrategy := Some(strategy);
    }

    method AddArguments(args: seq<string>)
      modifies this
      ensures arguments == old(arguments) + args && pageLoadStrategy == old(pageLoadStrategy)
    {
      arguments := arguments + args;
    }
  }

  const HeadlessChromiumArguments: seq<string> := ["--headless=new", "--disable-gpu", "--window-size=1920,1080"]
  const HeadlessFirefoxArguments: seq<string> := ["--headless", "--width=1920", "--height=1080"]

  /** The arguments each browser is started with. */
  function LaunchArguments(browser: BrowserKind, headless: bool): seq<string> {
    match browser
    case Chrome => ["--start-maximized"] + (if headless then HeadlessChromiumArguments else [])
    case Edge => if headless then HeadlessChromiumArguments else []
    case Firefox => if headless then HeadlessFirefoxArguments else []
  }

  /** Chrome is always maximised; headless mode adds three arguments to every
      browser, and without it Edge and Firefox get none. */
  lemma LaunchArgumentsShape(browser: BrowserKind, headless: bool)
    ensures var args := LaunchArguments(browser, headless);
            && (browser == Chrome ==> args[0] == "--start-maximized")
            && |args| == (if browser == Chrome then 1 else 0) + (if headless then 3 else 0)
            && (headless && browser != Firefox ==> args[|args| - 3..] == HeadlessChromiumArguments)
            && (headless && browser == Firefox ==> args == HeadlessFirefoxArguments)
  {
  }

  method CreateChrome(headless: bool) returns (o: Options)
    ensures fresh(o) && o.browser == Chrome && o.pageLoadStrategy == Some(Normal)
    ensures o.arguments == LaunchArguments(Chrome, headless)
  {
    o := new Options(Chrome);
    o.SetPageLoadStrategy(Normal);
    o.AddArguments(["--start-maximized"]);
    if headless {
      o.AddArguments(HeadlessChromiumArguments);
    }
  }

  method CreateEdge(headless: bool) returns (o: Options)
    ensures fresh(o) && o.browser == Edge && o.pageLoadStrategy == Some(Normal)
    ensures o.arguments == LaunchArguments(Edge, headless)
  {
    o := new Options(Edge);
    o.SetPageLoadStrategy(Normal);
    if headless {
      o.AddArguments(HeadlessChromiumArguments);
    }
  }

  method CreateFirefox(headless: bool) returns (o: Options)
    ensures fresh(o) && o.browser == Firefox && o.pageLoadStrategy == Some(Normal)
    ensures o.arguments == LaunchArguments(Firefox, headless)
  {
    o := new Options(Firefox);
    o.SetPageLoadStrategy(Normal);
    if headless {
      o.AddArguments(HeadlessFirefoxArguments);
    }
  }

  /** Boolean.parseBoolean: true exactly for "true" in any letter case; null
      is false. */
  function ParseBoolean(s: Option<string>): (b: bool)
    ensures b <==> s.Some? && EqualsIgnoreCase(s.value, "TRUE")
    ensures b ==> |s.value| == 4
  {
    assert ToLower("TRUE") == "true";
    match s
    case None => false
    case Some(v) => ToLower(v) == "true"
  }

  /** The switch of createDriver on the lower-cased name: "edge" and
      "firefox" select those browsers, and every other name Chrome. */
  function SelectBrowser(name: string): (k: BrowserKind)
    ensures k == Edge <==> EqualsIgnoreCase(name, "edge")
    ensures k == Firefox <==> EqualsIgnoreCase(name, "firefox")
    ensures k == Chrome <==> !EqualsIgnoreCase(name, "edge") && !EqualsIgnoreCase(name, "firefox")
  {
    assert ToLower("edge") == "edge";
    assert ToLower("firefox") == "firefox";
    var lower := ToLower(name);
    if lower == "edge" then Edge
    else if lower == "firefox" then Firefox
    else Chrome
  }

  /** The configured browser; "chrome" when none is configured. */
  function ConfiguredBrowser(src: Sources): BrowserKind {
    var name := Get(src, "browser", Some("chrome"));
    SelectBrowser(name.GetOr("chrome"))
  }

  /** The configured headless flag; "false" when none is configured. */
  function ConfiguredHeadless(src: Sources): bool {
    ParseBoolean(Get(src, "headless", Some("false")))
  }

  /** With nothing configured, Chrome starts with a visible window. */
  lemma DefaultsWithoutConfiguration(src: Sources)
    requires "browser" !in src.systemProperties && "browser" !in src.environment && "browser" !in src.properties
    requires "headless" !in src.systemProperties && "headless" !in src.environment && "headless" !in src.properties
    ensures ConfiguredBrowser(src) == Chrome
    ensures !ConfiguredHeadless(src)
  {
    assert ToLower("chrome") == "chrome";
    assert ToLower("false") == "false";
  }

  /** The name is matched regardless of letter case. */
  lemma UpperCaseNamesSelect()
    ensures SelectBrowser("EDGE") == Edge
    ensures SelectBrowser("FireFox") == Firefox
    ensures SelectBrowser("safari") == Chrome
  {
    assert ToLower("EDGE") == "edge";
    assert ToLower("FireFox") == "firefox";
    assert ToLower("safari") == "safari";
  }

  /** createDriver: the options the selected browser's driver is started with. */
  method CreateDriver(src: Sources) returns (o: Options)
    ensures fresh(o)
    ensures o.browser == ConfiguredBrowser(src)
    ensures o.pageLoadStrategy == Some(Normal)
    ensures o.arguments == LaunchArguments(o.browser, ConfiguredHeadless(src))
  {
    var browser := ToLower(Get(src, "browser", Some("chrome")).GetOr("chrome"));
    var headless := ParseBoolean(Get(src, "headless", Some("false")));
    if browser == "edge" {
      o := CreateEdge(headless);
    } else if browser == "firefox" {
      o := CreateFirefox(headless);
    } else {
      o := CreateChrome(headless);
    }
  }
}
