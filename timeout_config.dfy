/** The fixed table of timeouts, in seconds, that every wait in the framework
    draws from. */
module TimeoutConfig {

  const DefaultTimeout: nat := 10
  const ShortTimeout: nat := 5
  const LongTimeout: nat := 30
  const VeryShortTimeout: nat := 2

  /** Waiting for document.readyState. */
  const PageLoadTimeout: nat := 30

  const ImplicitWaitTimeout: nat := 5

  const CookieConsentTimeout: nat := 5

  /** Waiting for an element to become visible. */
  const ElementVisibilityTimeout: nat := 10

  /** Waiting for an element to become clickable. */
  const ElementClickableTimeout: nat := 10

  /** All nine constants, in declaration order. */
  function AllTimeouts(): (ts: seq<nat>)
    ensures |ts| == 9
  {
    [DefaultTimeout, ShortTimeout, LongTimeout, VeryShortTimeout, PageLoadTimeout,
     ImplicitWaitTimeout, CookieConsentTimeout, ElementVisibilityTimeout, ElementClickableTimeout]
  }

  /** The constants form a strict ladder, and the purpose-named ones alias it. */
  lemma TimeoutLadder()
    ensures VeryShortTimeout < ShortTimeout < DefaultTimeout < LongTimeout
    ensures PageLoadTimeout == LongTimeout == 30
    ensures ElementVisibilityTimeout == ElementClickableTimeout == DefaultTimeout == 10
    ensures ImplicitWaitTimeout == CookieConsentTimeout == ShortTimeout == 5
    ensures VeryShortTimeout == 2
  {
  }

  /** No timeout in the table is zero. */
  lemma TimeoutsPositive()
    ensures forall i :: 0 <= i < |AllTimeouts()| ==> AllTimeouts()[i] > 0
  {
  }
}
