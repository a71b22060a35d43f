/** The browser as the framework sees it through Selenium's WebDriver: a
    session that answers waits, element lookups and commands. The page behind
    it is abstract. Every wait and every command the framework issues is
    appended to the session's trace, and the page's answer to each one is an
    oracle over the trace issued before it, so a page may change in response
    to what was done to it (a banner disappearing after a click, say). */
module WebDriver {
  import opened Wrappers

  /** A Selenium By locator. */
  datatype By = XPath(expression: string) | Other(strategy: string, value: string)

  /** What a lookup returns: a snapshot of one element of the page. */
  datatype Element = Element(id: nat, text: string, attributes: map<string, string>, displayed: bool)

  /** The exceptions that matter to the framework: Selenium's TimeoutException,
      IllegalStateException, and every other exception (click intercepted,
      stale element, session gone, ...). */
  datatype Failure = Timeout | IllegalState | OtherError

  /** ExpectedConditions that yield an element. */
  datatype ElementCondition = VisibilityOf | ElementToBeClickable

  /** ExpectedConditions that yield no element. */
  datatype PageCondition = InvisibilityOf(locator: By) | DocumentComplete

  /** What the framework asks of the browser, in the order it asks. */
  datatype Action =
    | AwaitElement(condition: ElementCondition, locator: By, timeout: nat)
    | AwaitPage(pageCondition: PageCondition, seconds: nat)
    | FindElements(query: By)
    | NativeClick(target: Element)
    | JsClick(target: Element)
    | ScrollIntoView(target: Element)
    | Clear(target: Element)
    | Type(target: Element, keys: string)
    | NavigateTo(url: string)
    | Quit

  /** The page's answers, each a function of the actions issued before. */
  datatype Page = Page(
    awaitElement: (seq<Action>, ElementCondition, By, nat) -> Result<Element, Failure>,
    awaitPage: (seq<Action>, PageCondition, nat) -> Outcome<Failure>,
    findElements: (seq<Action>, By) -> Result<seq<Element>, Failure>,
    perform: (seq<Action>, Action) -> Outcome<Failure>)

  /** One browser session (a WebDriver instance). */
  class Driver {
    const page: Page
    var trace: seq<Action>

    constructor (page: Page)
      ensures this.page == page && trace == []
    {
      this.page := page;
      trace := [];
    }

    /** new WebDriverWait(driver, timeout).until(condition of locator). */
    method WaitUntil(condition: ElementCondition, locator: By, timeout: nat)
      returns (r: Result<Element, Failure>)
      modifies this
      ensures trace == old(trace) + [AwaitElement(condition, locator, timeout)]
      ensures r == page.awaitElement(old(trace), condition, locator, timeout)
    {
      r := page.awaitElement(trace, condition, locator, timeout);
      trace := trace + [AwaitElement(condition, locator, timeout)];
    }

    /** new WebDriverWait(driver, seconds).until(condition). */
    method WaitUntilPage(condition: PageCondition, seconds: nat) returns (r: Outcome<Failure>)
      modifies this
      ensures trace == old(trace) + [AwaitPage(condition, seconds)]
      ensures r == page.awaitPage(old(trace), condition, seconds)
    {
      r := page.awaitPage(trace, condition, seconds);
      trace := trace + [AwaitPage(condition, seconds)];
    }

    /** driver.findElements(locator), in document order. */
    method FindAll(locator: By) returns (r: Result<seq<Element>, Failure>)
      modifies this
      ensures trace == old(trace) + [FindElements(locator)]
      ensures r == page.findElements(old(trace), locator)
    {
      r := page.findElements(trace, locator);
      trace := trace + [FindElements(locator)];
    }

    /** A command on an element or on the session: click(), a script,
        clear(), sendKeys(), navigate().to(), quit(). */
    method Perform(command: Action) returns (r: Outcome<Failure>)
      modifies this
      ensures trace == old(trace) + [command]
      ensures r == page.perform(old(trace), command)
    {
      r := page.perform(trace, command);
      trace := trace + [command];
    }
  }
}
