/** ElementUtil: the interaction rules layered on a browser session. Every
    element operation but selectDropdownValue first waits through
    WebDriverWait; each operation issues its commands in a fixed order and
    decides which exceptions it swallows.

    Each operation is a method on a Driver whose trace it extends, and each
    is tied to a function of the page and of the trace before the call: a
    Run, the actions the call issues and what it returns or throws. The
    properties of the interaction rules are stated about those functions. */
module ElementUtil {
  import opened Wrappers
  import opened Sequences
  import opened Strings
  import opened TimeoutConfig
  import opened WebDriver

  /** The actions one call issues, and its return value or exception. */
  datatype Run<T> = Run(result: T, issued: seq<Action>)

  /** The element one action clicks natively or by script, if any. */
  function Clicked(x: Action): seq<Element> {
    if x.NativeClick? || x.JsClick? then [x.target] else []
  }

  /** The element one action clicks by script, if any. */
  function ScriptClicked(x: Action): seq<Element> {
    if x.JsClick? then [x.target] else []
  }

  /** The elements clicked natively or by script, in order. */
  function ClickTargets(acts: seq<Action>): seq<Element> {
    if acts == [] then [] else Clicked(acts[0]) + ClickTargets(acts[1..])
  }

  /** The elements clicked by script, in order. */
  function ScriptClickTargets(acts: seq<Action>): seq<Element> {
    if acts == [] then [] else ScriptClicked(acts[0]) + ScriptClickTargets(acts[1..])
  }

  lemma {:induction false} ClickTargetsConcat(a: seq<Action>, b: seq<Action>)
    ensures ClickTargets(a + b) == ClickTargets(a) + ClickTargets(b)
  {
    if a == [] {
      assert a + b == b;
    } else {
      var ab := a + b;
      assert ab[0] == a[0];
      assert ab[1..] == a[1..] + b;
      assert ClickTargets(ab) == Clicked(a[0]) + ClickTargets(a[1..] + b);
      ClickTargetsConcat(a[1..], b);
    }
  }

  lemma {:induction false} ScriptClickTargetsConcat(a: seq<Action>, b: seq<Action>)
    ensures ScriptClickTargets(a + b) == ScriptClickTargets(a) + ScriptClickTargets(b)
  {
    if a == [] {
      assert a + b == b;
    } else {
      var ab := a + b;
      assert ab[0] == a[0];
      assert ab[1..] == a[1..] + b;
      assert ScriptClickTargets(ab) == ScriptClicked(a[0]) + ScriptClickTargets(a[1..] + b);
      ScriptClickTargetsConcat(a[1..], b);
    }
  }

  lemma TargetsConcat(a: seq<Action>, b: seq<Action>)
    ensures ClickTargets(a + b) == ClickTargets(a) + ClickTargets(b)
    ensures ScriptClickTargets(a + b) == ScriptClickTargets(a) + ScriptClickTargets(b)
  {
    ClickTargetsConcat(a, b);
    ScriptClickTargetsConcat(a, b);
  }

  lemma TargetsOfOne(x: Action)
    ensures ClickTargets([x]) == if x.NativeClick? || x.JsClick? then [x.target] else []
    ensures ScriptClickTargets([x]) == if x.JsClick? then [x.target] else []
  {
    assert [x][1..] == [];
  }

  // ----- waits -------------------------------------------------------------

  /** waitForElementVisible(locator, timeout). */
  method WaitForElementVisible(b: Driver, locator: By, timeout: nat) returns (r: Result<Element, Failure>)
    modifies b
    ensures b.trace == old(b.trace) + [AwaitElement(VisibilityOf, locator, timeout)]
    ensures r == b.page.awaitElement(old(b.trace), VisibilityOf, locator, timeout)
  {
    r := b.WaitUntil(VisibilityOf, locator, timeout);
  }

  /** waitForElementClickable(locator, timeout). */
  method WaitForElementClickable(b: Driver, locator: By, timeout: nat) returns (r: Result<Element, Failure>)
    modifies b
    ensures b.trace == old(b.trace) + [AwaitElement(ElementToBeClickable, locator, timeout)]
    ensures r == b.page.awaitElement(old(b.trace), ElementToBeClickable, locator, timeout)
  {
    r := b.WaitUntil(ElementToBeClickable, locator, timeout);
  }

  /** waitForPageLoad: document.readyState within PAGE_LOAD_TIMEOUT; a
      timeout propagates. */
  method WaitForPageLoad(b: Driver) returns (r: Outcome<Failure>)
    modifies b
    ensures b.trace == old(b.trace) + [AwaitPage(DocumentComplete, PageLoadTimeout)]
    ensures r == b.page.awaitPage(old(b.trace), DocumentComplete, PageLoadTimeout)
  {
    r := b.WaitUntilPage(DocumentComplete, PageLoadTimeout);
  }

  /** navigate(url). */
  method Navigate(b: Driver, url: string) returns (r: Outcome<Failure>)
    modifies b
    ensures b.trace == old(b.trace) + [NavigateTo(url)]
    ensures r == b.page.perform(old(b.trace), NavigateTo(url))
  {
    r := b.Perform(NavigateTo(url));
  }

  // ----- presence ----------------------------------------------------------

  /** isElementPresent(locator, timeout): one visibility wait; a timeout
      becomes false, any other exception propagates. */
  function IsElementPresentRun(page: Page, history: seq<Action>, locator: By, timeout: nat)
    : (run: Run<Result<bool, Failure>>)
    ensures run.issued == [AwaitElement(VisibilityOf, locator, timeout)]
    ensures var w := page.awaitElement(history, VisibilityOf, locator, timeout);
            && (run.result == Ok(true) <==> w.Ok?)
            && (run.result == Ok(false) <==> w == Err(Timeout))
            && (run.result.Err? <==> w.Err? && w.error != Timeout)
            && (run.result.Err? ==> run.result.error == w.error)
  {
    var w := page.awaitElement(history, VisibilityOf, locator, timeout);
    var result := match w
      case Ok(_) => Ok(true)
      case Err(Timeout) => Ok(false)
      case Err(f) => Err(f);
    Run(result, [AwaitElement(VisibilityOf, locator, timeout)])
  }

  method IsElementPresent(b: Driver, locator: By, timeout: nat) returns (r: Result<bool, Failure>)
    modifies b
    ensures var run := IsElementPresentRun(b.page, old(b.trace), locator, timeout);
            r == run.result && b.trace == old(b.trace) + run.issued
  {
    var w := WaitForElementVisible(b, locator, timeout);
    if w.Ok? {
      r := Ok(true);
    } else if w.error == Timeout {
      r := Ok(false);
    } else {
      r := Err(w.error);
    }
  }

  /** isDisplayed(locator): a VERY_SHORT_TIMEOUT visibility wait, then the
      element's own displayed flag; a timeout becomes false. */
  function IsDisplayedRun(page: Page, history: seq<Action>, locator: By): (run: Run<Result<bool, Failure>>)
    ensures run.issued == [AwaitElement(VisibilityOf, locator, VeryShortTimeout)]
    ensures run.result != Err(Timeout)
    ensures var w := page.awaitElement(history, VisibilityOf, locator, VeryShortTimeout);
            && (w.Ok? ==> run.result == Ok(w.value.displayed))
            && (w == Err(Timeout) ==> run.result == Ok(false))
            && (w.Err? && w.error != Timeout ==> run.result == Err(w.error))
  {
    var w := page.awaitElement(history, VisibilityOf, locator, VeryShortTimeout);
    var result := match w
      case Ok(e) => Ok(e.displayed)
      case Err(Timeout) => Ok(false)
      case Err(f) => Err(f);
    Run(result, [AwaitElement(VisibilityOf, locator, VeryShortTimeout)])
  }

  method IsDisplayed(b: Driver, locator: By) returns (r: Result<bool, Failure>)
    modifies b
    ensures var run := IsDisplayedRun(b.page, old(b.trace), locator);
            r == run.result && b.trace == old(b.trace) + run.issued
  {
    var w := WaitForElementVisible(b, locator, VeryShortTimeout);
    if w.Ok? {
      r := Ok(w.value.displayed);
    } else if w.error == Timeout {
      r := Ok(false);
    } else {
      r := Err(w.error);
    }
  }

  /** A displayed element is a present one: isDisplayed reports true only
      when isElementPresent with VERY_SHORT_TIMEOUT would. */
  lemma DisplayedImpliesPresent(page: Page, history: seq<Action>, locator: By)
    requires IsDisplayedRun(page, history, locator).result == Ok(true)
    ensures IsElementPresentRun(page, history, locator, VeryShortTimeout).result == Ok(true)
  {
  }

  // ----- reads -------------------------------------------------------------

  /** getText(locator): the visible element's text as it is; a failed wait,
      including a timeout, propagates. */
  function GetTextRun(page: Page, history: seq<Action>, locator: By): (run: Run<Result<string, Failure>>)
    ensures run.issued == [AwaitElement(VisibilityOf, locator, ElementVisibilityTimeout)]
    ensures var w := page.awaitElement(history, VisibilityOf, locator, ElementVisibilityTimeout);
            && (run.result.Ok? <==> w.Ok?)
            && (w.Ok? ==> run.result.value == w.value.text)
            && (w.Err? ==> run.result.error == w.error)
  {
    var w := page.awaitElement(history, VisibilityOf, locator, ElementVisibilityTimeout);
    var result := match w
      case Ok(e) => Ok(e.text)
      case Err(f) => Err(f);
    Run(result, [AwaitElement(VisibilityOf, locator, ElementVisibilityTimeout)])
  }

  method GetText(b: Driver, locator: By) returns (r: Result<string, Failure>)
    modifies b
    ensures var run := GetTextRun(b.page, old(b.trace), locator);
            r == run.result && b.trace == old(b.trace) + run.issued
  {
    var w := WaitForElementVisible(b, locator, ElementVisibilityTimeout);
    if w.Ok? {
      r := Ok(w.value.text);
    } else {
      r := Err(w.error);
    }
  }

  /** getAttribute(locator, name): the visible element's attribute as it is,
      null (None) when it has none; a failed wait propagates. */
  function GetAttributeRun(page: Page, history: seq<Action>, locator: By, name: string)
    : (run: Run<Result<Option<string>, Failure>>)
    ensures run.issued == [AwaitElement(VisibilityOf, locator, ElementVisibilityTimeout)]
    ensures var w := page.awaitElement(history, VisibilityOf, locator, ElementVisibilityTimeout);
            && (run.result.Ok? <==> w.Ok?)
            && (w.Ok? ==> (run.result.value.Some? <==> name in w.value.attributes))
            && (w.Ok? && name in w.value.attributes ==> run.result.value == Some(w.value.attributes[name]))
            && (w.Err? ==> run.result.error == w.error)
  {
    var w := page.awaitElement(history, VisibilityOf, locator, ElementVisibilityTimeout);
    var result := match w
      case Ok(e) => Ok(if name in e.attributes then Some(e.attributes[name]) else None)
      case Err(f) => Err(f);
    Run(result, [AwaitElement(VisibilityOf, locator, ElementVisibilityTimeout)])
  }

  method GetAttribute(b: Driver, locator: By, name: string) returns (r: Result<Option<string>, Failure>)
    modifies b
    ensures var run := GetAttributeRun(b.page, old(b.trace), locator, name);
            r == run.result && b.trace == old(b.trace) + run.issued
  {
    var w := WaitForElementVisible(b, locator, ElementVisibilityTimeout);
    if w.Ok? {
      var e := w.value;
      r := Ok(if name in e.attributes then Some(e.attributes[name]) else None);
    } else {
      r := Err(w.error);
    }
  }

  // ----- commands ----------------------------------------------------------

  /** The first half of click: wait until clickable, then click natively.
      Either step may throw. */
  function NativeAttempt(page: Page, history: seq<Action>, locator: By): (run: Run<Outcome<Failure>>)
    ensures run.issued != [] && run.issued[0] == AwaitElement(ElementToBeClickable, locator, ElementClickableTimeout)
  {
    var wait := AwaitElement(ElementToBeClickable, locator, ElementClickableTimeout);
    match page.awaitElement(history, ElementToBeClickable, locator, ElementClickableTimeout)
    case Err(f) => Run(Fail(f), [wait])
    case Ok(e) => Run(page.perform(history + [wait], NativeClick(e)), [wait, NativeClick(e)])
  }

  /** The native attempt never clicks by script. */
  lemma NativeAttemptTargets(page: Page, history: seq<Action>, locator: By)
    ensures ScriptClickTargets(NativeAttempt(page, history, locator).issued) == []
  {
    var wait := AwaitElement(ElementToBeClickable, locator, ElementClickableTimeout);
    TargetsOfOne(wait);
    match page.awaitElement(history, ElementToBeClickable, locator, ElementClickableTimeout)
    case Err(f) =>
    case Ok(e) =>
      TargetsOfOne(NativeClick(e));
      TargetsConcat([wait], [NativeClick(e)]);
      assert [wait] + [NativeClick(e)] == [wait, NativeClick(e)];
  }

  /** The second half of click, run when the first threw anything: wait
      until visible, then click by script. Both exceptions propagate. */
  function ScriptFallback(page: Page, history: seq<Action>, locator: By): (run: Run<Outcome<Failure>>)
  {
    var wait := AwaitElement(VisibilityOf, locator, ElementVisibilityTimeout);
    match page.awaitElement(history, VisibilityOf, locator, ElementVisibilityTimeout)
    case Err(f) => Run(Fail(f), [wait])
    case Ok(e) => Run(page.perform(history + [wait], JsClick(e)), [wait, JsClick(e)])
  }

  /** click(locator). */
  function ClickRun(page: Page, history: seq<Action>, locator: By): (run: Run<Outcome<Failure>>)
    ensures run.issued != [] && run.issued[0] == AwaitElement(ElementToBeClickable, locator, ElementClickableTimeout)
  {
    var native := NativeAttempt(page, history, locator);
    if native.result.Pass? then native
    else
      var fallback := ScriptFallback(page, history + native.issued, locator);
      Run(fallback.result, native.issued + fallback.issued)
  }

  /** click issues at most one script click, whatever the page does. */
  lemma ClickScriptsAtMostOnce(page: Page, history: seq<Action>, locator: By)
    ensures |ScriptClickTargets(ClickRun(page, history, locator).issued)| <= 1
  {
    var native := NativeAttempt(page, history, locator);
    NativeAttemptTargets(page, history, locator);
    if native.result.Fail? {
      ScriptFallbackTargets(page, history + native.issued, locator);
      TargetsConcat(native.issued, ScriptFallback(page, history + native.issued, locator).issued);
    }
  }

  /** The script fallback clicks by script at most once, and only the
      element its visibility wait returned. */
  lemma ScriptFallbackTargets(page: Page, history: seq<Action>, locator: By)
    ensures var w := page.awaitElement(history, VisibilityOf, locator, ElementVisibilityTimeout);
            ScriptClickTargets(ScriptFallback(page, history, locator).issued)
              == if w.Ok? then [w.value] else []
  {
    var wait := AwaitElement(VisibilityOf, locator, ElementVisibilityTimeout);
    TargetsOfOne(wait);
    match page.awaitElement(history, VisibilityOf, locator, ElementVisibilityTimeout)
    case Err(f) =>
    case Ok(e) =>
      TargetsOfOne(JsClick(e));
      TargetsConcat([wait], [JsClick(e)]);
      assert [wait] + [JsClick(e)] == [wait, JsClick(e)];
  }

  /** When the clickable wait and the native click both succeed, click
      issues exactly those two actions and no script click. */
  lemma ClickWithoutFallback(page: Page, history: seq<Action>, locator: By, e: Element)
    requires page.awaitElement(history, ElementToBeClickable, locator, ElementClickableTimeout) == Ok(e)
    requires page.perform(history + [AwaitElement(ElementToBeClickable, locator, ElementClickableTimeout)],
                          NativeClick(e)) == Pass
    ensures ClickRun(page, history, locator)
         == Run(Pass, [AwaitElement(ElementToBeClickable, locator, ElementClickableTimeout), NativeClick(e)])
    ensures ScriptClickTargets(ClickRun(page, history, locator).issued) == []
  {
    NativeAttemptTargets(page, history, locator);
  }

  /** When either step of the native attempt throws, the exception is
      swallowed: click then waits for visibility, clicks by script exactly
      once if the element is visible, and reports only what the fallback
      throws (a visibility timeout included). */
  lemma ClickFallsBack(page: Page, history: seq<Action>, locator: By)
    requires NativeAttempt(page, history, locator).result.Fail?
    ensures var native := NativeAttempt(page, history, locator);
            var h := history + native.issued;
            var w := page.awaitElement(h, VisibilityOf, locator, ElementVisibilityTimeout);
            var run := ClickRun(page, history, locator);
            && run.issued == native.issued + [AwaitElement(VisibilityOf, locator, ElementVisibilityTimeout)]
                             + (if w.Ok? then [JsClick(w.value)] else [])
            && ScriptClickTargets(run.issued) == (if w.Ok? then [w.value] else [])
            && (w.Err? ==> run.result == Fail(w.error))
            && (w.Ok? ==> run.result == page.perform(h + [AwaitElement(VisibilityOf, locator, ElementVisibilityTimeout)],
                                                     JsClick(w.value)))
  {
    var native := NativeAttempt(page, history, locator);
    var h := history + native.issued;
    var fallback := ScriptFallback(page, h, locator);
    assert ClickRun(page, history, locator) == Run(fallback.result, native.issued + fallback.issued);
    ScriptFallbackShape(page, h, locator);
    NativeAttemptTargets(page, history, locator);
    ScriptFallbackTargets(page, h, locator);
    TargetsConcat(native.issued, fallback.issued);
  }

  /** What the script fallback issues and reports. */
  lemma ScriptFallbackShape(page: Page, history: seq<Action>, locator: By)
    ensures var w := page.awaitElement(history, VisibilityOf, locator, ElementVisibilityTimeout);
            var run := ScriptFallback(page, history, locator);
            var wait := AwaitElement(VisibilityOf, locator, ElementVisibilityTimeout);
            && run.issued == [wait] + (if w.Ok? then [JsClick(w.value)] else [])
            && (w.Err? ==> run.result == Fail(w.error))
            && (w.Ok? ==> run.result == page.perform(history + [wait], JsClick(w.value)))
  {
  }

  method Click(b: Driver, locator: By) returns (r: Outcome<Failure>)
    modifies b
    ensures var run := ClickRun(b.page, old(b.trace), locator);
            r == run.result && b.trace == old(b.trace) + run.issued
  {
    ghost var native := NativeAttempt(b.page, b.trace, locator);
    var first: Outcome<Failure>;
    var clickable := WaitForElementClickable(b, locator, ElementClickableTimeout);
    if clickable.Ok? {
      first := b.Perform(NativeClick(clickable.value));
      assert [AwaitElement(ElementToBeClickable, locator, ElementClickableTimeout)] + [NativeClick(clickable.value)]
          == native.issued;
    } else {
      first := Fail(clickable.error);
    }
    assert b.trace == old(b.trace) + native.issued && first == native.result;
    if first.Pass? {
      r := Pass;
    } else {
      ghost var fallback := ScriptFallback(b.page, b.trace, locator);
      var visible := WaitForElementVisible(b, locator, ElementVisibilityTimeout);
      if visible.Ok? {
        r := b.Perform(JsClick(visible.value));
        assert [AwaitElement(VisibilityOf, locator, ElementVisibilityTimeout)] + [JsClick(visible.value)]
            == fallback.issued;
      } else {
        r := Fail(visible.error);
      }
      assert b.trace == old(b.trace) + native.issued + fallback.issued;
    }
  }

  /** sendKeys(locator, text): wait until visible, clear, then type. Nothing
      is retried; the first exception propagates. */
  function SendKeysRun(page: Page, history: seq<Action>, locator: By, text: string): (run: Run<Outcome<Failure>>)
    ensures run.issued != [] && run.issued[0] == AwaitElement(VisibilityOf, locator, ElementVisibilityTimeout)
    ensures 1 <= |run.issued| <= 3
    ensures forall i :: 0 < i < |run.issued| ==> run.issued[i].Clear? || run.issued[i].Type?
    ensures |run.issued| > 1 ==> run.issued[1].Clear?
    ensures |run.issued| > 2 ==> run.issued[2] == Type(run.issued[1].target, text)
    ensures run.result.Pass? ==> |run.issued| == 3
    ensures var w := page.awaitElement(history, VisibilityOf, locator, ElementVisibilityTimeout);
            && (w.Err? <==> |run.issued| == 1)
            && (w.Err? ==> run.result == Fail(w.error))
            && (w.Ok? ==> run.issued[1] == Clear(w.value))
    ensures var wait := AwaitElement(VisibilityOf, locator, ElementVisibilityTimeout);
            var w := page.awaitElement(history, VisibilityOf, locator, ElementVisibilityTimeout);
            w.Ok? ==>
              var cleared := page.perform(history + [wait], Clear(w.value));
              && (cleared.Fail? ==> run == Run(cleared, [wait, Clear(w.value)]))
              && (cleared.Pass? ==> run == Run(page.perform(history + [wait, Clear(w.value)], Type(w.value, text)),
                                               [wait, Clear(w.value), Type(w.value, text)]))
  {
    var wait := AwaitElement(VisibilityOf, locator, ElementVisibilityTimeout);
    match page.awaitElement(history, VisibilityOf, locator, ElementVisibilityTimeout)
    case Err(f) => Run(Fail(f), [wait])
    case Ok(e) =>
      match page.perform(history + [wait], Clear(e))
      case Fail(f) => Run(Fail(f), [wait, Clear(e)])
      case Pass => Run(page.perform(history + [wait, Clear(e)], Type(e, text)), [wait, Clear(e), Type(e, text)])
  }

  method SendKeys(b: Driver, locator: By, text: string) returns (r: Outcome<Failure>)
    modifies b
    ensures var run := SendKeysRun(b.page, old(b.trace), locator, text);
            r == run.result && b.trace == old(b.trace) + run.issued
  {
    var visible := WaitForElementVisible(b, locator, ElementVisibilityTimeout);
    if visible.Err? {
      return Fail(visible.error);
    }
    var e := visible.value;
    ghost var wait := AwaitElement(VisibilityOf, locator, ElementVisibilityTimeout);
    var cleared := b.Perform(Clear(e));
    assert b.trace == old(b.trace) + [wait, Clear(e)];
    if cleared.Fail? {
      return cleared;
    }
    r := b.Perform(Type(e, text));
    assert b.trace == old(b.trace) + [wait, Clear(e), Type(e, text)];
  }

  /** scrollIntoView(locator): wait until visible, then scroll by script. */
  function ScrollIntoViewRun(page: Page, history: seq<Action>, locator: By): (run: Run<Outcome<Failure>>)
    ensures run.issued != [] && run.issued[0] == AwaitElement(VisibilityOf, locator, ElementVisibilityTimeout)
    ensures |run.issued| <= 2 && forall a :: a in run.issued ==> !a.NativeClick? && !a.JsClick?
    ensures var wait := AwaitElement(VisibilityOf, locator, ElementVisibilityTimeout);
            var w := page.awaitElement(history, VisibilityOf, locator, ElementVisibilityTimeout);
            && (w.Err? ==> run == Run(Fail(w.error), [wait]))
            && (w.Ok? ==> run == Run(page.perform(history + [wait], ScrollIntoView(w.value)),
                                     [wait, ScrollIntoView(w.value)]))
  {
    var wait := AwaitElement(VisibilityOf, locator, ElementVisibilityTimeout);
    match page.awaitElement(history, VisibilityOf, locator, ElementVisibilityTimeout)
    case Err(f) => Run(Fail(f), [wait])
    case Ok(e) => Run(page.perform(history + [wait], ScrollIntoView(e)), [wait, ScrollIntoView(e)])
  }

  method ScrollIntoViewOf(b: Driver, locator: By) returns (r: Outcome<Failure>)
    modifies b
    ensures var run := ScrollIntoViewRun(b.page, old(b.trace), locator);
            r == run.result && b.trace == old(b.trace) + run.issued
  {
    var visible := WaitForElementVisible(b, locator, ElementVisibilityTimeout);
    if visible.Err? {
      return Fail(visible.error);
    }
    r := b.Perform(ScrollIntoView(visible.value));
  }

  // ----- dropdown ----------------------------------------------------------

  /** The index of the first element whose text equals expValue ignoring
      case, or |elems| when there is none. */
  function FirstMatch(elems: seq<Element>, expValue: string): (k: nat)
    ensures k <= |elems|
    ensures forall j :: 0 <= j < k ==> !EqualsIgnoreCase(elems[j].text, expValue)
    ensures k < |elems| ==> EqualsIgnoreCase(elems[k].text, expValue)
  {
    if elems == [] then 0
    else if EqualsIgnoreCase(elems[0].text, expValue) then 0
    else 1 + FirstMatch(elems[1..], expValue)
  }

  /** Clicking a found element: natively, and by script if that throws. */
  function ElementClickRun(page: Page, history: seq<Action>, e: Element): (run: Run<Outcome<Failure>>)
  {
    match page.perform(history, NativeClick(e))
    case Pass => Run(Pass, [NativeClick(e)])
    case Fail(_) => Run(page.perform(history + [NativeClick(e)], JsClick(e)), [NativeClick(e), JsClick(e)])
  }

  /** selectDropdownValue(elementsLocator, expValue). */
  function SelectRun(page: Page, history: seq<Action>, locator: By, expValue: string): (run: Run<Outcome<Failure>>)
    ensures run.issued != [] && run.issued[0] == FindElements(locator)
  {
    var find := FindElements(locator);
    match page.findElements(history, locator)
    case Err(f) => Run(Fail(f), [find])
    case Ok(elems) =>
      var k := FirstMatch(elems, expValue);
      if k == |elems| then Run(Pass, [find])
      else
        var c := ElementClickRun(page, history + [find], elems[k]);
        Run(c.result, [find] + c.issued)
  }

  /** The dropdown clicks only the first matching element: once natively, and
      a second time by script exactly when the native click threw, whose
      exception is then swallowed in favour of the script click's outcome.
      With no match nothing is clicked and nothing is thrown. */
  lemma SelectClicksFirstMatchOnly(page: Page, history: seq<Action>, locator: By, expValue: string)
    ensures var run := SelectRun(page, history, locator, expValue);
            var found := page.findElements(history, locator);
            var h := history + [FindElements(locator)];
            && (found.Err? ==> run == Run(Fail(found.error), [FindElements(locator)]))
            && (found.Ok? && FirstMatch(found.value, expValue) == |found.value| ==>
                  run == Run(Pass, [FindElements(locator)]) && ClickTargets(run.issued) == [])
            && (found.Ok? && FirstMatch(found.value, expValue) < |found.value| ==>
                  var e := found.value[FirstMatch(found.value, expValue)];
                  && ClickTargets(run.issued)
                       == (if page.perform(h, NativeClick(e)).Pass? then [e] else [e, e])
                  && ScriptClickTargets(run.issued)
                       == (if page.perform(h, NativeClick(e)).Pass? then [] else [e])
                  && run.issued == [FindElements(locator), NativeClick(e)]
                                   + (if page.perform(h, NativeClick(e)).Pass? then [] else [JsClick(e)])
                  && run.result == (if page.perform(h, NativeClick(e)).Pass? then Pass
                                    else page.perform(h + [NativeClick(e)], JsClick(e))))
  {
    var find := FindElements(locator);
    TargetsOfOne(find);
    match page.findElements(history, locator)
    case Err(f) =>
    case Ok(elems) =>
      var k := FirstMatch(elems, expValue);
      if k < |elems| {
        var h := history + [find];
        var c := ElementClickRun(page, h, elems[k]);
        SelectMatchedRun(page, history, locator, expValue, elems, k);
        ElementClickTargets(page, h, elems[k]);
        TargetsConcat([find], c.issued);
        SelectMatchedShape(page, history, locator, expValue, elems, k);
      }
  }

  /** The match case of SelectClicksFirstMatchOnly: the order of the clicks
      and the outcome. */
  lemma SelectMatchedShape(page: Page, history: seq<Action>, locator: By, expValue: string, elems: seq<Element>, k: nat)
    requires page.findElements(history, locator) == Ok(elems)
    requires k == FirstMatch(elems, expValue) < |elems|
    ensures var run := SelectRun(page, history, locator, expValue);
            var h, e := history + [FindElements(locator)], elems[k];
            var native := page.perform(h, NativeClick(e));
            && run.issued == [FindElements(locator), NativeClick(e)] + (if native.Pass? then [] else [JsClick(e)])
            && run.result == (if native.Pass? then Pass else page.perform(h + [NativeClick(e)], JsClick(e)))
  {
    var find := FindElements(locator);
    var h, e := history + [find], elems[k];
    SelectMatchedRun(page, history, locator, expValue, elems, k);
    ElementClickTargets(page, h, e);
    var fallback: seq<Action> := if page.perform(h, NativeClick(e)).Pass? then [] else [JsClick(e)];
    ConcatAssoc([find], [NativeClick(e)], fallback);
  }

  /** With a match, the dropdown's run is the lookup followed by the click
      of the first matching element. */
  lemma SelectMatchedRun(page: Page, history: seq<Action>, locator: By, expValue: string, elems: seq<Element>, k: nat)
    requires page.findElements(history, locator) == Ok(elems)
    requires k == FirstMatch(elems, expValue) < |elems|
    ensures var c := ElementClickRun(page, history + [FindElements(locator)], elems[k]);
            SelectRun(page, history, locator, expValue) == Run(c.result, [FindElements(locator)] + c.issued)
  {
  }

  /** Clicking a found element clicks it natively, and once more by script
      exactly when the native click threw; the native exception is swallowed
      and the script click's outcome is the result. */
  lemma ElementClickTargets(page: Page, history: seq<Action>, e: Element)
    ensures var c := ElementClickRun(page, history, e);
            var native := page.perform(history, NativeClick(e));
            && ClickTargets(c.issued) == (if native.Pass? then [e] else [e, e])
            && ScriptClickTargets(c.issued) == (if native.Pass? then [] else [e])
            && c.issued == [NativeClick(e)] + (if native.Pass? then [] else [JsClick(e)])
            && c.result == (if native.Pass? then Pass else page.perform(history + [NativeClick(e)], JsClick(e)))
  {
    TargetsOfOne(NativeClick(e));
    TargetsOfOne(JsClick(e));
    if page.perform(history, NativeClick(e)).Fail? {
      TargetsConcat([NativeClick(e)], [JsClick(e)]);
      assert [NativeClick(e)] + [JsClick(e)] == ElementClickRun(page, history, e).issued;
    }
  }

  method SelectDropdownValue(b: Driver, locator: By, expValue: string) returns (r: Outcome<Failure>)
    modifies b
    ensures var run := SelectRun(b.page, old(b.trace), locator, expValue);
            r == run.result && b.trace == old(b.trace) + run.issued
  {
    var found := b.FindAll(locator);
    if found.Err? {
      return Fail(found.error);
    }
    var elems := found.value;
    r := Pass;
    var i := 0;
    while i < |elems|
      invariant 0 <= i <= |elems|
      invariant forall j :: 0 <= j < i ==> !EqualsIgnoreCase(elems[j].text, expValue)
      invariant b.trace == old(b.trace) + [FindElements(locator)]
      invariant r == Pass
    {
      if EqualsIgnoreCase(elems[i].text, expValue) {
        var native := b.Perform(NativeClick(elems[i]));
        if native.Fail? {
          r := b.Perform(JsClick(elems[i]));
        }
        break;
      }
      i := i + 1;
    }
  }

  // ----- cookie consent ----------------------------------------------------

  /** The five consent-button heuristics, tried in this order. */
  const CookieSelectors: seq<string> := [
    "//button[contains(text(), 'Accept') or contains(text(), 'Accept All')]",
    "//button[contains(@id, 'accept') or contains(@class, 'accept')]",
    "//button[contains(@data-testid, 'accept')]",
    "//div[@id='usercentrics-cmp-ui']//button[contains(text(), 'Accept')]",
    "//*[@id='usercentrics-cmp-ui']//button[1]"
  ]

  /** The invisibility wait after the click is a literal two seconds. */
  const CookieDismissalWait: nat := 2

  function CookieLocators(): (locs: seq<By>)
    ensures |locs| == |CookieSelectors| == 5
    ensures forall i :: 0 <= i < 5 ==> locs[i] == XPath(CookieSelectors[i])
  {
    seq(|CookieSelectors|, i requires 0 <= i < |CookieSelectors| => XPath(CookieSelectors[i]))
  }

  /** The presence probe for one heuristic. */
  function ProbeAction(locator: By): Action {
    AwaitElement(VisibilityOf, locator, VeryShortTimeout)
  }

  function Probes(locs: seq<By>): (ps: seq<Action>)
    ensures |ps| == |locs|
    ensures forall i :: 0 <= i < |locs| ==> ps[i] == ProbeAction(locs[i])
  {
    seq(|locs|, i requires 0 <= i < |locs| => ProbeAction(locs[i]))
  }

  /** After a heuristic was found present: click it and, if the click did
      not throw, wait for it to disappear. Every exception here ends the
      routine. */
  function DismissActions(page: Page, history: seq<Action>, locator: By): seq<Action> {
    var click := ClickRun(page, history, locator);
    if click.result.Pass? then click.issued + [AwaitPage(InvisibilityOf(locator), CookieDismissalWait)]
    else click.issued
  }

  /** handleCookieConsent over the heuristics locs: what it issues. It
      returns nothing and throws nothing. */
  function CookieActions(page: Page, history: seq<Action>, locs: seq<By>): seq<Action>
    decreases |locs|
  {
    if locs == [] then []
    else
      var probe := IsElementPresentRun(page, history, locs[0], VeryShortTimeout);
      match probe.result
      case Ok(present) =>
        if present then probe.issued + DismissActions(page, history + probe.issued, locs[0])
        else probe.issued + CookieActions(page, history + probe.issued, locs[1..])
      case Err(_) => probe.issued
  }

  /** One step of CookieActions, by the answer to the first probe. */
  lemma CookieStepActions(page: Page, history: seq<Action>, locs: seq<By>)
    requires locs != []
    ensures var w := page.awaitElement(history, VisibilityOf, locs[0], VeryShortTimeout);
            var h := history + [ProbeAction(locs[0])];
            CookieActions(page, history, locs)
              == [ProbeAction(locs[0])]
                 + (if w == Err(Timeout) then CookieActions(page, h, locs[1..])
                    else if w.Ok? then DismissActions(page, h, locs[0])
                    else [])
  {
  }

  /** The dismissal of a present banner; a thrown click or invisibility
      wait is caught by the caller, which stops either way. */
  method Dismiss(b: Driver, locator: By)
    modifies b
    ensures b.trace == old(b.trace) + DismissActions(b.page, old(b.trace), locator)
  {
    var clicked := Click(b, locator);
    if clicked.Pass? {
      var gone := b.WaitUntilPage(InvisibilityOf(locator), CookieDismissalWait);
    }
  }

  /** Whether the probe of one heuristic timed out, so that the next one
      is tried. */
  predicate ProbeTimedOut(page: Page, history: seq<Action>, locator: By) {
    page.awaitElement(history, VisibilityOf, locator, VeryShortTimeout) == Err(Timeout)
  }

  /** What handling one heuristic issues: its probe and, when the banner is
      present, its dismissal. */
  function CookieStepIssued(page: Page, history: seq<Action>, locator: By): (acts: seq<Action>)
    ensures acts != [] && acts[0] == ProbeAction(locator)
    ensures ProbeTimedOut(page, history, locator) ==> acts == [ProbeAction(locator)]
  {
    var w := page.awaitElement(history, VisibilityOf, locator, VeryShortTimeout);
    [ProbeAction(locator)] + (if w.Ok? then DismissActions(page, history + [ProbeAction(locator)], locator) else [])
  }

  /** One heuristic of handleCookieConsent: probe it and, if present,
      dismiss it. stop says whether the routine ends here: any answer but a
      timeout ends it, a thrown exception included. */
  method CookieStep(b: Driver, locator: By) returns (stop: bool)
    modifies b
    ensures b.trace == old(b.trace) + CookieStepIssued(b.page, old(b.trace), locator)
    ensures stop <==> !ProbeTimedOut(b.page, old(b.trace), locator)
    ensures !stop ==> b.trace == old(b.trace) + [ProbeAction(locator)]
  {
    var present := IsElementPresent(b, locator, VeryShortTimeout);
    stop := present != Ok(false);
    if present == Ok(true) {
      Dismiss(b, locator);
    }
  }

  /** handleCookieConsent(): the heuristics are tried in the listed order. */
  method HandleCookieConsent(b: Driver)
    modifies b
    ensures b.trace == old(b.trace) + CookieActions(b.page, old(b.trace), CookieLocators())
  {
    CookieActionsShape(b.page, b.trace, CookieLocators());
    TryHeuristics(b, CookieLocators());
  }

  /** The loop of handleCookieConsent: probe the heuristics in order until
      one answers other than by timing out, and handle that one. */
  method TryHeuristics(b: Driver, locs: seq<By>)
    modifies b
    ensures var k := FirstAnswered(b.page, old(b.trace), locs);
            b.trace == old(b.trace) + Probes(locs[..k]) + CookieTail(b.page, old(b.trace), locs, k)
  {
    ghost var h0 := b.trace;
    var i := 0;
    while i < |locs|
      invariant 0 <= i <= |locs|
      invariant b.trace == h0 + Probes(locs[..i])
      invariant forall j :: 0 <= j < i ==> ProbeAnswer(b.page, h0, locs, j) == Err(Timeout)
    {
      ghost var h := b.trace;
      var stop := CookieStep(b, locs[i]);
      if stop {
        FirstAnsweredAt(b.page, h0, locs, i);
        CookieTailIsStep(b.page, h0, locs, i);
        break;
      }
      ProbesSnoc(locs, i);
      i := i + 1;
    }
    if i == |locs| {
      FirstAnsweredAt(b.page, h0, locs, i);
    }
  }

  lemma ProbesSnoc(locs: seq<By>, i: nat)
    requires i < |locs|
    ensures Probes(locs[..i + 1]) == Probes(locs[..i]) + [ProbeAction(locs[i])]
  {
  }

  /** The probe after i timeouts is the step CookieStep takes there. */
  lemma CookieTailIsStep(page: Page, history: seq<Action>, locs: seq<By>, i: nat)
    requires i < |locs|
    ensures CookieTail(page, history, locs, i) == CookieStepIssued(page, history + Probes(locs[..i]), locs[i])
  {
    ProbesSnoc(locs, i);
    assert history + Probes(locs[..i + 1]) == history + Probes(locs[..i]) + [ProbeAction(locs[i])];
  }

  /** The first probe that does not time out is the first answered one. */
  lemma {:induction false} FirstAnsweredAt(page: Page, history: seq<Action>, locs: seq<By>, i: nat)
    requires i <= |locs|
    requires forall j :: 0 <= j < i ==> ProbeAnswer(page, history, locs, j) == Err(Timeout)
    requires i < |locs| ==> ProbeAnswer(page, history, locs, i) != Err(Timeout)
    ensures FirstAnswered(page, history, locs) == i
    decreases i
  {
    if locs != [] {
      ProbeAnswerFirst(page, history, locs);
      if i > 0 {
        var h1 := history + [ProbeAction(locs[0])];
        forall j | 0 <= j < i - 1 ensures ProbeAnswer(page, h1, locs[1..], j) == Err(Timeout) {
          ProbeAnswerShift(page, history, locs, j);
        }
        if i < |locs| {
          ProbeAnswerShift(page, history, locs, i - 1);
        }
        FirstAnsweredAt(page, h1, locs[1..], i - 1);
      }
    }
  }

  /** The answer to the probe of locs[i], given that every earlier probe
      was issued (and timed out). */
  function ProbeAnswer(page: Page, history: seq<Action>, locs: seq<By>, i: nat): Result<Element, Failure>
    requires i < |locs|
  {
    page.awaitElement(history + Probes(locs[..i]), VisibilityOf, locs[i], VeryShortTimeout)
  }

  /** How many probes time out before one answers. */
  function FirstAnswered(page: Page, history: seq<Action>, locs: seq<By>): (k: nat)
    ensures k <= |locs|
    decreases |locs|
  {
    if locs == [] then 0
    else if page.awaitElement(history, VisibilityOf, locs[0], VeryShortTimeout) == Err(Timeout)
    then 1 + FirstAnswered(page, history + [ProbeAction(locs[0])], locs[1..])
    else 0
  }

  lemma ProbesShift(history: seq<Action>, locs: seq<By>, i: nat)
    requires i < |locs|
    ensures history + [ProbeAction(locs[0])] + Probes(locs[1..][..i]) == history + Probes(locs[..i + 1])
  {
    assert [ProbeAction(locs[0])] + Probes(locs[1..][..i]) == Probes(locs[..i + 1]);
  }

  /** Probing the tail after a timed-out first probe is probing further along. */
  lemma ProbeAnswerShift(page: Page, history: seq<Action>, locs: seq<By>, i: nat)
    requires i + 1 < |locs|
    ensures ProbeAnswer(page, history + [ProbeAction(locs[0])], locs[1..], i) == ProbeAnswer(page, history, locs, i + 1)
  {
    ProbesShift(history, locs, i);
    assert locs[1..][i] == locs[i + 1];
  }

  /** The first probe is probed on the caller's history. */
  lemma ProbeAnswerFirst(page: Page, history: seq<Action>, locs: seq<By>)
    requires locs != []
    ensures ProbeAnswer(page, history, locs, 0) == page.awaitElement(history, VisibilityOf, locs[0], VeryShortTimeout)
  {
    assert history + Probes(locs[..0]) == history;
  }

  /** FirstAnswered is the index of the first probe that does not time out. */
  lemma {:induction false} FirstAnsweredSpec(page: Page, history: seq<Action>, locs: seq<By>)
    ensures var k := FirstAnswered(page, history, locs);
            && (forall i :: 0 <= i < k ==> ProbeAnswer(page, history, locs, i) == Err(Timeout))
            && (k < |locs| ==> ProbeAnswer(page, history, locs, k) != Err(Timeout))
    decreases |locs|
  {
    if locs != [] {
      ProbeAnswerFirst(page, history, locs);
      if page.awaitElement(history, VisibilityOf, locs[0], VeryShortTimeout) == Err(Timeout) {
        var h1 := history + [ProbeAction(locs[0])];
        FirstAnsweredSpec(page, h1, locs[1..]);
        var k := FirstAnswered(page, history, locs);
        assert k == 1 + FirstAnswered(page, h1, locs[1..]);
        forall i | 0 < i < k ensures ProbeAnswer(page, history, locs, i) == Err(Timeout) {
          ProbeAnswerShift(page, history, locs, i - 1);
        }
        if k < |locs| {
          ProbeAnswerShift(page, history, locs, k - 1);
        }
      }
    }
  }

  /** What follows the k timed-out probes. */
  function CookieTail(page: Page, history: seq<Action>, locs: seq<By>, k: nat): seq<Action>
    requires k <= |locs|
  {
    if k == |locs| then []
    else [ProbeAction(locs[k])]
         + (if ProbeAnswer(page, history, locs, k).Ok?
            then DismissActions(page, history + Probes(locs[..k + 1]), locs[k])
            else [])
  }

  /** CookieTail seen from the tail after a timed-out first probe. */
  lemma CookieTailShift(page: Page, history: seq<Action>, locs: seq<By>, k: nat)
    requires 0 < k <= |locs|
    ensures CookieTail(page, history + [ProbeAction(locs[0])], locs[1..], k - 1) == CookieTail(page, history, locs, k)
  {
    if k < |locs| {
      ProbeAnswerShift(page, history, locs, k - 1);
      ProbesShift(history, locs, k);
      assert locs[1..][k - 1] == locs[k];
    }
  }

  /** The whole shape of handleCookieConsent: the heuristics are probed in
      listed order, each with VERY_SHORT_TIMEOUT, up to the first whose probe
      does not time out; if that one is present it alone is clicked and
      awaited, and if its probe threw the routine just ends. No heuristic is
      probed after that point. */
  lemma {:induction false} CookieActionsShape(page: Page, history: seq<Action>, locs: seq<By>)
    ensures var k := FirstAnswered(page, history, locs);
            CookieActions(page, history, locs) == Probes(locs[..k]) + CookieTail(page, history, locs, k)
    decreases |locs|
  {
    if locs == [] {
      assert locs[..0] == [];
    } else if ProbeTimedOut(page, history, locs[0]) {
      CookieActionsShape(page, history + [ProbeAction(locs[0])], locs[1..]);
      ShapeAfterTimeout(page, history, locs);
    } else {
      ShapeAnswered(page, history, locs);
    }
  }

  /** The inductive step of CookieActionsShape: a timed-out first probe. */
  lemma ShapeAfterTimeout(page: Page, history: seq<Action>, locs: seq<By>)
    requires locs != [] && ProbeTimedOut(page, history, locs[0])
    requires var h1, k1 := history + [ProbeAction(locs[0])], FirstAnswered(page, history + [ProbeAction(locs[0])], locs[1..]);
             CookieActions(page, h1, locs[1..]) == Probes(locs[1..][..k1]) + CookieTail(page, h1, locs[1..], k1)
    ensures var k := FirstAnswered(page, history, locs);
            CookieActions(page, history, locs) == Probes(locs[..k]) + CookieTail(page, history, locs, k)
  {
    var p0 := ProbeAction(locs[0]);
    var h1 := history + [p0];
    var k1 := FirstAnswered(page, h1, locs[1..]);
    var k := k1 + 1;
    assert FirstAnswered(page, history, locs) == k;
    CookieStepActions(page, history, locs);
    var rest := CookieActions(page, h1, locs[1..]);
    assert CookieActions(page, history, locs) == [p0] + rest;
    var probes1 := Probes(locs[1..][..k1]);
    assert [p0] + probes1 == Probes(locs[..k]);
    CookieTailShift(page, history, locs, k);
    var tail := CookieTail(page, history, locs, k);
    assert rest == probes1 + tail;
    ConcatAssoc([p0], probes1, tail);
  }

  /** The base of CookieActionsShape: the first probe answers. */
  lemma ShapeAnswered(page: Page, history: seq<Action>, locs: seq<By>)
    requires locs != [] && !ProbeTimedOut(page, history, locs[0])
    ensures var k := FirstAnswered(page, history, locs);
            CookieActions(page, history, locs) == Probes(locs[..k]) + CookieTail(page, history, locs, k)
  {
    ProbeAnswerFirst(page, history, locs);
    CookieStepActions(page, history, locs);
    assert FirstAnswered(page, history, locs) == 0;
    assert locs[..0] == [] && history + Probes(locs[..0]) == history;
    assert Probes(locs[..1]) == [ProbeAction(locs[0])];
  }

  /** With no banner (every probe times out) all five heuristics are probed
      and nothing is clicked. */
  lemma NoBannerNoClick(page: Page, history: seq<Action>, locs: seq<By>)
    requires FirstAnswered(page, history, locs) == |locs|
    ensures CookieActions(page, history, locs) == Probes(locs)
    ensures ClickTargets(CookieActions(page, history, locs)) == []
  {
    CookieActionsShape(page, history, locs);
    assert locs[..|locs|] == locs;
    assert CookieTail(page, history, locs, |locs|) == [];
    NoClicksInProbes(locs);
  }

  lemma {:induction false} NoClicksInProbes(locs: seq<By>)
    ensures ClickTargets(Probes(locs)) == []
    decreases |locs|
  {
    if locs != [] {
      assert Probes(locs) == [ProbeAction(locs[0])] + Probes(locs[1..]);
      TargetsConcat([ProbeAction(locs[0])], Probes(locs[1..]));
      TargetsOfOne(ProbeAction(locs[0]));
      NoClicksInProbes(locs[1..]);
    }
  }

  /** The locator an action looks up, if any. */
  function LocatorOf(a: Action): Option<By> {
    match a
    case AwaitElement(_, l, _) => Some(l)
    case AwaitPage(InvisibilityOf(l), _) => Some(l)
    case FindElements(l) => Some(l)
    case _ => None
  }

  predicate IsProbe(a: Action) {
    a.AwaitElement? && a.condition == VisibilityOf && a.timeout == VeryShortTimeout
  }

  /** Dismissing a banner looks up no locator but its own and probes
      nothing, so no later heuristic is tried. */
  lemma DismissTouchesOnlyItsLocator(page: Page, history: seq<Action>, locator: By)
    ensures forall a :: a in DismissActions(page, history, locator) ==>
              !IsProbe(a) && (LocatorOf(a).Some? ==> LocatorOf(a) == Some(locator))
  {
    var native := NativeAttempt(page, history, locator);
    if native.result.Fail? {
      var fallback := ScriptFallback(page, history + native.issued, locator);
      assert ClickRun(page, history, locator).issued == native.issued + fallback.issued;
    }
  }
}
