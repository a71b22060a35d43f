# selenium-pom-framework: the interaction layer, modelled in Dafny

The framework is a page-object layer over Selenium WebDriver. Its core is a
small set of decision rules:

- **ElementUtil.** Every element interaction except dropdown selection
  starts with an explicit wait; navigation issues no wait. Some exceptions
  are swallowed and others are passed on:
  - a presence check turns a timeout into `false`;
  - a click falls back to a JavaScript click;
  - dropdown selection clicks the first element whose text matches;
  - cookie-consent dismissal walks five XPath heuristics and never throws.
- **DriverManager.** Keeps one browser per thread.
- **ConfigManager.get.** Resolves a key from system properties, then the
  environment, then `config.properties`, then a default.
- **XpathUtil.replaceXpath.** Fills `{...}` placeholders in an XPath template.
- **TimeoutConfig.** Holds the timeouts.
- **WebDriverFactory.** Chooses the browser and builds its launch options.

## How the model is built

`web_driver.dfy` holds the abstract browser.

- A `Driver` has a fixed `Page` and a `trace`, the sequence of `Action`s
  issued so far. Actions are waits, element lookups, native clicks, script
  clicks, clear, type, scroll, navigate and quit.
- The page answers each wait, lookup and command as a function of the trace
  issued before it. A page can therefore react to what was done to it.
- Selenium's exceptions are the `Failure` values `Timeout`, `IllegalState`
  and `OtherError`.

`element_util.dfy` models each ElementUtil operation as a method on a
`Driver` that extends its trace the way the Java method does. The
postconditions take three forms:

- The single-call operations (navigate, waitForPageLoad,
  waitForElementVisible, waitForElementClickable) are tied directly to the
  page's answer.
- Every other operation except handleCookieConsent also has a function
  `...Run(page, history, ...)`. It gives the actions that one call issues
  and its return value or exception, returned together as a `Run`. The
  method's postcondition ties it to that function.
- handleCookieConsent returns nothing. It is tied to `CookieActions`, the
  sequence of actions it issues.

The interaction rules are proved about these functions. They cover which
actions appear, in what order, what the result is, and which failures are
swallowed.

The other state-changing parts are also classes with `modifies` clauses:

- `Drivers.DriverManager` holds a map from thread id to driver;
- `WebDriverFactory.Options` is the options object that the `create*`
  helpers fill.

The rest is pure:

- `ConfigManager.Get` is a cascade over three maps passed in as parameters;
- `XpathUtil` defines the replacement step `ReplaceFirst` and the fold
  `FillAll`; the loop method `ReplaceXpath` is proved equal to `FillAll`;
- `TimeoutConfig` holds constants;
- the browser selection is a set of functions.

`Wrappers` holds `Option`/`Result`/`Outcome`. `Strings` holds the `String`
operations the code relies on: `isBlank`, `toLowerCase` and
`equalsIgnoreCase`.

Paths in the table are relative to the repository root.

## Model

| member | source | states |
|---|---|---|
| ElementUtil.Navigate | src/main/java/utils/ElementUtil.java:26-28 | issues exactly one navigation to the URL; the browser's answer is returned, so a failure propagates |
| ElementUtil.WaitForPageLoad | src/main/java/utils/ElementUtil.java:33-36 | issues one document-complete wait of PAGE_LOAD_TIMEOUT (30 s) and returns its outcome, a timeout included |
| ElementUtil.WaitForElementVisible | src/main/java/utils/ElementUtil.java:70-73 | issues one visibility wait with the caller's timeout; returns the element or the wait's exception |
| ElementUtil.WaitForElementClickable | src/main/java/utils/ElementUtil.java:78-81 | issues one clickable wait with the caller's timeout; returns the element or the wait's exception |
| ElementUtil.IsElementPresentRun | src/main/java/utils/ElementUtil.java:137-144 | one visibility wait; true iff the element became visible, false iff the wait timed out, and any other exception propagates unchanged |
| ElementUtil.IsElementPresent | src/main/java/utils/ElementUtil.java:137-144 | the method returns what IsElementPresentRun says and appends exactly its actions |
| ElementUtil.IsDisplayedRun | src/main/java/utils/ElementUtil.java:165-172 | probes with VERY_SHORT_TIMEOUT; never reports a timeout, which becomes false; a found element yields its displayed flag; other exceptions propagate |
| ElementUtil.IsDisplayed | src/main/java/utils/ElementUtil.java:165-172 | the method returns what IsDisplayedRun says and appends exactly its actions |
| ElementUtil.DisplayedImpliesPresent | src/main/java/utils/ElementUtil.java:165-172 | isDisplayed reporting true implies that isElementPresent with the same short timeout reports true |
| ElementUtil.GetTextRun | src/main/java/utils/ElementUtil.java:63-65 | one visibility wait (ELEMENT_VISIBILITY_TIMEOUT); the text is the found element's text, unmodified; a failed wait propagates |
| ElementUtil.GetText | src/main/java/utils/ElementUtil.java:63-65 | the method returns what GetTextRun says and appends exactly its actions |
| ElementUtil.GetAttributeRun | src/main/java/utils/ElementUtil.java:157-160 | one visibility wait; the value is the element's attribute as stored, null exactly when the element has no such attribute; a failed wait propagates |
| ElementUtil.GetAttribute | src/main/java/utils/ElementUtil.java:157-160 | the method returns what GetAttributeRun says and appends exactly its actions |
| ElementUtil.NativeAttempt | src/main/java/utils/ElementUtil.java:43 | the first half of click starts with the clickable wait of ELEMENT_CLICKABLE_TIMEOUT |
| ElementUtil.NativeAttemptTargets | src/main/java/utils/ElementUtil.java:43 | the first half of click never clicks by script |
| ElementUtil.ScriptFallback | src/main/java/utils/ElementUtil.java:46-47 | definition of the fallback: a visibility wait, then a script click on the found element; either failure is the result |
| ElementUtil.ScriptFallbackShape | src/main/java/utils/ElementUtil.java:46-47 | the fallback is a visibility wait followed, if an element was found, by one script click on it; a timeout of that wait propagates |
| ElementUtil.ScriptFallbackTargets | src/main/java/utils/ElementUtil.java:46-47 | the fallback clicks by script exactly the element its wait returned, or nothing |
| ElementUtil.ClickRun | src/main/java/utils/ElementUtil.java:41-49 | click always starts with the clickable wait |
| ElementUtil.ClickWithoutFallback | src/main/java/utils/ElementUtil.java:42-43 | when the clickable wait and the native click succeed, click issues exactly those two actions, succeeds, and issues no script click |
| ElementUtil.ClickFallsBack | src/main/java/utils/ElementUtil.java:44-48 | when the native attempt throws anything, the exception is swallowed; click then waits for visibility and clicks by script exactly once if that wait succeeds; only the fallback's failure escapes |
| ElementUtil.ClickScriptsAtMostOnce | src/main/java/utils/ElementUtil.java:41-49 | click issues at most one script click, whatever the page does |
| ElementUtil.Click | src/main/java/utils/ElementUtil.java:41-49 | the method returns what ClickRun says and appends exactly its actions |
| ElementUtil.SendKeysRun | src/main/java/utils/ElementUtil.java:54-58 | visibility wait first; then a clear of the found element strictly before typing the text into that same element; one to three actions, so nothing is retried; a failed wait propagates; a failed clear is the result and nothing is typed; after a successful clear the result is that of the typing |
| ElementUtil.SendKeys | src/main/java/utils/ElementUtil.java:54-58 | the method returns what SendKeysRun says and appends exactly its actions |
| ElementUtil.ScrollIntoViewRun | src/main/java/utils/ElementUtil.java:149-152 | a visibility wait, whose failure propagates with nothing more issued; otherwise exactly one scroll of the found element, whose outcome is the result; no click of any kind |
| ElementUtil.ScrollIntoViewOf | src/main/java/utils/ElementUtil.java:149-152 | the method returns what ScrollIntoViewRun says and appends exactly its actions |
| ElementUtil.FirstMatch | src/main/java/utils/ElementUtil.java:89-90 | the index of the first element, in findElements order, whose text equals the value ignoring case; no earlier element matches |
| ElementUtil.SelectRun | src/main/java/utils/ElementUtil.java:86-100 | selectDropdownValue starts with one findElements of the locator |
| ElementUtil.ElementClickRun | src/main/java/utils/ElementUtil.java:91-96 | definition of clicking a matched element: a native click, and a script click only when the native click threw, whose outcome is then the result |
| ElementUtil.ElementClickTargets | src/main/java/utils/ElementUtil.java:91-96 | a matched element is clicked natively first, and afterwards once by script exactly when the native click threw; that exception is swallowed and the script click's outcome is the result; a passing native click is the result |
| ElementUtil.SelectClicksFirstMatchOnly | src/main/java/utils/ElementUtil.java:86-100 | only the first matching element is clicked: the lookup, then its native click, then a script click only if the native click threw, whose exception is swallowed in favour of the script click's outcome; with no match nothing is clicked and nothing is thrown; a failed lookup propagates |
| ElementUtil.SelectDropdownValue | src/main/java/utils/ElementUtil.java:86-100 | the loop with its early break returns what SelectRun says and appends exactly its actions |
| ElementUtil.CookieLocators | src/main/java/utils/ElementUtil.java:108-117 | the five heuristics, as XPath locators, in the listed order |
| ElementUtil.DismissActions | src/main/java/utils/ElementUtil.java:119-122 | definition of the dismissal: the click of the heuristic, then the two-second invisibility wait for it only when the click did not throw |
| ElementUtil.CookieActions | src/main/java/utils/ElementUtil.java:105-132 | definition of handleCookieConsent's actions: probe each heuristic in turn; a timeout moves on, presence dismisses and stops, any other exception stops |
| ElementUtil.CookieStepActions | src/main/java/utils/ElementUtil.java:116-125 | one heuristic: its probe, then on a timeout the remaining heuristics, on presence the dismissal and nothing more, on any other exception nothing more |
| ElementUtil.CookieStepIssued | src/main/java/utils/ElementUtil.java:118-123 | handling one heuristic starts with its probe, and it is only the probe when the probe timed out |
| ElementUtil.CookieStep | src/main/java/utils/ElementUtil.java:117-124 | one loop iteration issues the probe and, if the banner is present, the click and the two-second invisibility wait; the loop stops unless the probe timed out |
| ElementUtil.Dismiss | src/main/java/utils/ElementUtil.java:119-122 | the click; then, only if the click did not throw, the invisibility wait for the same locator |
| ElementUtil.TryHeuristics | src/main/java/utils/ElementUtil.java:116-125 | the loop issues the timed-out probes in order, and then the handling of the first answered heuristic, if there is one |
| ElementUtil.HandleCookieConsent | src/main/java/utils/ElementUtil.java:105-132 | appends exactly the actions of CookieActions over the five heuristics and reports no failure, whatever the page does |
| ElementUtil.FirstAnsweredSpec | src/main/java/utils/ElementUtil.java:116-118 | FirstAnswered counts the probes that time out before the first that does not |
| ElementUtil.FirstAnsweredAt | src/main/java/utils/ElementUtil.java:116-118 | if the first i probes time out and probe i does not (or there is none), FirstAnswered is i |
| ElementUtil.FirstAnswered | src/main/java/utils/ElementUtil.java:116-124 | the number of leading heuristics whose probe times out, at most the number of heuristics |
| ElementUtil.CookieTail | src/main/java/utils/ElementUtil.java:116-124 | definition of what follows the timed-out probes: the answered probe and, if it found the banner, its dismissal |
| ElementUtil.CookieActionsShape | src/main/java/utils/ElementUtil.java:108-125 | handleCookieConsent probes the heuristics in listed order, each with VERY_SHORT_TIMEOUT, up to the first whose probe does not time out; only that one can be clicked and awaited, and no later heuristic is probed |
| ElementUtil.NoBannerNoClick | src/main/java/utils/ElementUtil.java:116-125 | when every probe times out, all five are probed and nothing is clicked |
| ElementUtil.DismissTouchesOnlyItsLocator | src/main/java/utils/ElementUtil.java:119-122 | dismissing a banner probes nothing and looks up no locator but its own |
| Drivers.Current | src/main/java/utils/DriverManager.java:14-20 | a thread's slot yields its bound driver, or IllegalStateException exactly when nothing is bound |
| Drivers.DriverManager.constructor | src/main/java/utils/DriverManager.java:6 | every slot starts empty |
| Drivers.DriverManager.SetDriver | src/main/java/utils/DriverManager.java:10-12 | binds the driver to the caller's slot, overwriting any earlier binding; getDriver then returns it; every other thread's slot is unchanged |
| Drivers.DriverManager.GetDriver | src/main/java/utils/DriverManager.java:14-20 | returns what Current gives for the caller's slot: the bound driver, or IllegalStateException exactly when the slot is empty; changes nothing |
| Drivers.DriverManager.QuitDriver | src/main/java/utils/DriverManager.java:22-31 | with an empty slot nothing happens; otherwise the bound driver receives quit and the slot is emptied even when quit throws, the failure propagating; afterwards getDriver throws; other threads are untouched |
| ConfigManager.Get | src/main/java/utils/ConfigManager.java:29-43 | a usable system property wins; otherwise a usable environment value; otherwise a usable properties value; otherwise the default; the result is the default or a usable value |
| ConfigManager.Lookup | src/main/java/utils/ConfigManager.java:30-39 | a level yields its value for the key, or null exactly when the key is absent |
| ConfigManager.Usable | src/main/java/utils/ConfigManager.java:31-39 | definition of the guard at each level: not null and not blank |
| ConfigManager.GetOrNull | src/main/java/utils/ConfigManager.java:45-47 | get(key) is get(key, null), and a value it returns is never blank |
| ConfigManager.FirstUsable | src/main/java/utils/ConfigManager.java:29-43 | reference cascade: the default, or a usable candidate in the list |
| ConfigManager.GetIsFirstUsable | src/main/java/utils/ConfigManager.java:29-43 | get is the first usable value among system property, environment, properties file, in that order, or the default |
| ConfigManager.GetOrigin | src/main/java/utils/ConfigManager.java:29-43 | the result is the default or a non-blank value found at one of the three levels |
| ConfigManager.BlankSystemPropertyIsAbsent | src/main/java/utils/ConfigManager.java:31 | a blank system property gives the same result as no system property |
| ConfigManager.BlankEnvironmentIsAbsent | src/main/java/utils/ConfigManager.java:35 | a blank environment value gives the same result as none |
| ConfigManager.BlankPropertyIsAbsent | src/main/java/utils/ConfigManager.java:39 | a blank properties-file value gives the same result as none |
| ConfigManager.GetDependsOnlyOnKey | src/main/java/utils/ConfigManager.java:29-43 | changing another key's value, as a system property, an environment variable or a properties-file entry, does not change the result |
| XpathUtil.ReplaceXpath | src/main/java/utils/XpathUtil.java:5-10 | the loop applies the values in argument order, one replacement each (FillAll); with no values the template is returned unchanged |
| XpathUtil.ReplaceFirst | src/main/java/utils/XpathUtil.java:7 | definition of one replaceFirst step: the found token is cut out and the value put in its place; no token, no change |
| XpathUtil.FillAll | src/main/java/utils/XpathUtil.java:6-8 | definition of the loop as a fold: the values applied in argument order, one step each |
| XpathUtil.FindPlaceholder | src/main/java/utils/XpathUtil.java:7 | the match of the pattern, if any: the first `{` of the string and the first `}` after it |
| XpathUtil.FindPlaceholderNone | src/main/java/utils/XpathUtil.java:7 | there is no match exactly when no `}` follows a `{` |
| XpathUtil.PlaceholderUnique | src/main/java/utils/XpathUtil.java:7 | the leftmost shortest token is the one found |
| XpathUtil.ReplaceFirstSplit | src/main/java/utils/XpathUtil.java:7 | a value replaces the leftmost token, keeping the text before and after it exactly |
| XpathUtil.ReplaceFirstNoPlaceholder | src/main/java/utils/XpathUtil.java:7 | a string without a token is left unchanged |
| XpathUtil.ExtraValuesKeepString | src/main/java/utils/XpathUtil.java:6-8 | once no token remains, further values change nothing |
| XpathUtil.ReplaceFirstPrefix | src/main/java/utils/XpathUtil.java:7 | text after the token being replaced is carried along unchanged |
| XpathUtil.ReplaceFirstConsumesOne | src/main/java/utils/XpathUtil.java:7 | a value without braces fills exactly one token |
| XpathUtil.PlaceholdersBehind | src/main/java/utils/XpathUtil.java:7 | text without `{` in front of a string does not change its number of tokens |
| XpathUtil.FillCount | src/main/java/utils/XpathUtil.java:6-8 | n brace-free values fill n tokens when there are at least n |
| XpathUtil.PlaceholdersGrowWithPrefix | src/main/java/utils/XpathUtil.java:7 | text put in front of a string never removes one of its tokens |
| XpathUtil.ReplaceFirstKeepsOthers | src/main/java/utils/XpathUtil.java:7 | whatever the value, one step fills at most one token |
| XpathUtil.TrailingTextUntouched | src/main/java/utils/XpathUtil.java:6-8 | with no more values than tokens in a prefix, the text after it, trailing tokens included, is untouched, whatever the values contain |
| XpathUtil.InsertedTokenIsFilledNext | src/main/java/utils/XpathUtil.java:6-8 | each step searches the whole current string, so a token brought in by one value is filled by the next value |
| TimeoutConfig.AllTimeouts | src/main/java/utils/TimeoutConfig.java:12-30 | the nine constants |
| TimeoutConfig.TimeoutLadder | src/main/java/utils/TimeoutConfig.java:12-30 | VERY_SHORT (2) < SHORT (5) < DEFAULT (10) < LONG (30); PAGE_LOAD = LONG; ELEMENT_VISIBILITY = ELEMENT_CLICKABLE = DEFAULT; IMPLICIT_WAIT = COOKIE_CONSENT = SHORT |
| TimeoutConfig.TimeoutsPositive | src/main/java/utils/TimeoutConfig.java:12-30 | every timeout constant is positive |
| Strings.ToLower | src/main/java/utils/WebDriverFactory.java:16 | lower-casing keeps the length and maps each character by LowerChar |
| Strings.IsBlank | src/main/java/utils/ConfigManager.java:31 | definition of String.isBlank: every character is whitespace, so the empty string is blank |
| Strings.EqualsIgnoreCase | src/main/java/utils/ElementUtil.java:90 | definition of String.equalsIgnoreCase: equal after lower-casing, so of equal length |
| WebDriverFactory.Options.SetPageLoadStrategy | src/main/java/utils/WebDriverFactory.java:32 | sets the strategy and leaves the arguments alone |
| WebDriverFactory.Options.AddArguments | src/main/java/utils/WebDriverFactory.java:33 | appends the arguments in order |
| WebDriverFactory.LaunchArguments | src/main/java/utils/WebDriverFactory.java:30-56 | definition of each browser's arguments for the headless flag, in the order they are added |
| WebDriverFactory.CreateChrome | src/main/java/utils/WebDriverFactory.java:30-38 | Chrome options with strategy NORMAL and the arguments "--start-maximized", then the three headless arguments when headless |
| WebDriverFactory.CreateEdge | src/main/java/utils/WebDriverFactory.java:40-47 | Edge options with strategy NORMAL; no arguments unless headless, then Chrome's three headless arguments |
| WebDriverFactory.CreateFirefox | src/main/java/utils/WebDriverFactory.java:49-56 | Firefox options with strategy NORMAL; "--headless", "--width=1920", "--height=1080" when headless, otherwise none |
| WebDriverFactory.LaunchArgumentsShape | src/main/java/utils/WebDriverFactory.java:30-56 | Chrome always starts maximised; headless adds three arguments for each browser; otherwise Edge and Firefox get none |
| WebDriverFactory.ParseBoolean | src/main/java/utils/WebDriverFactory.java:17 | Boolean.parseBoolean: true exactly for "true" in any letter case; null is false |
| WebDriverFactory.SelectBrowser | src/main/java/utils/WebDriverFactory.java:19-27 | Edge iff the name is "edge" ignoring case, Firefox iff "firefox", and Chrome for every other name |
| WebDriverFactory.ConfiguredBrowser | src/main/java/utils/WebDriverFactory.java:16 | definition of the browser choice: the "browser" key with default "chrome", then SelectBrowser |
| WebDriverFactory.ConfiguredHeadless | src/main/java/utils/WebDriverFactory.java:17 | definition of the headless flag: the "headless" key with default "false", parsed as a boolean |
| WebDriverFactory.DefaultsWithoutConfiguration | src/main/java/utils/WebDriverFactory.java:16-17 | with neither key configured anywhere, Chrome is chosen and headless is off |
| WebDriverFactory.UpperCaseNamesSelect | src/main/java/utils/WebDriverFactory.java:16 | the name is lower-cased before matching: "EDGE" selects Edge, "FireFox" Firefox, "safari" Chrome |
| WebDriverFactory.CreateDriver | src/main/java/utils/WebDriverFactory.java:15-28 | the options are those of the configured browser, with strategy NORMAL and that browser's arguments for the configured headless flag |

## Left out

- Selenium itself is not modelled: WebDriverWait polling, wall-clock time,
  `document.readyState`, JavaScript execution and XPath evaluation. A wait is
  an oracle of the page. Its timeout is recorded in the trace but is not
  elapsed time.
- Threads. ThreadLocal is a map keyed by an explicit thread id. Concurrency
  is not modelled. Nothing prevents one driver from being bound to two
  threads.
- ElementUtil's private getDriver: in the model every operation takes the
  caller's bound driver as a parameter. getDriver's IllegalStateException
  for an unbound thread is modelled in Drivers.Current and GetDriver only. In
  handleCookieConsent the Java code would swallow that exception like any
  other.
- ConfigManager.Get: an empty key is not an error in the model.
  `System.getProperty("")` throws IllegalArgumentException, so the Java
  `get("", d)` throws. No caller passes an empty key.
- The static initialiser of ConfigManager (src/main/java/utils/ConfigManager.java:11-27)
  is classpath I/O. Its getResourceAsStream helper is left out too. The
  loaded properties are a parameter.
- XpathUtil.ReplaceXpath: three inputs are excluded by preconditions and
  so are not modelled:
  - values containing `$` or `\`, which are special in a replaceFirst
    replacement;
  - a template containing a line terminator, because `.` does not match one;
  - values containing a line terminator, which replaceFirst accepts. A later
    step could then fail to match across it: with template `{a}}` and values
    `{` + newline and `w`, Java leaves `{` + newline + `}` in place, while the
    model's step would fill it.
- Strings: isBlank, toLowerCase and equalsIgnoreCase are modelled on ASCII.
  Locale-dependent and other Unicode case mappings and whitespace are left
  out.
- Driver construction (`new ChromeDriver(options)` and its counterparts) is
  a foreign call. CreateDriver yields the options it would be given.
- Element reads are snapshots taken when the wait or the lookup returns. A
  stale-element failure is not modelled for these reads:
  - getText, getAttribute or isDisplayed after a successful wait;
  - the `getText()` that selectDropdownValue calls on each found element
    (src/main/java/utils/ElementUtil.java:90). The model reads that text from
    the findElements result, so it cannot fail there.
- The message that handleCookieConsent prints to System.err is left out.
- `COOKIE_CONSENT_TIMEOUT` is declared but no code uses it. The cookie
  banner's invisibility wait is the literal 2 seconds, as written.
- setDriver overwrites an existing binding of the calling thread without
  complaint, and the model does the same. No rejection of a second binding
  is modelled.
- selectDropdownValue gives no signal when nothing matches. The model, like
  the code, returns normally.
- ExtentManager, ExtentTestManager, Logger, the page objects and the TestNG
  tests are not part of this model. They are reporting, logging and
  site-specific glue.
