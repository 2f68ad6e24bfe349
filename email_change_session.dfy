/**
 * lib/services/email-change-session.service.ts: the pending e-mail change
 * kept in the browser's session storage for ten minutes. The storage slot
 * under "emailChangeSession" is a field; `hasWindow` says whether the code
 * runs in a browser at all. The clock is a parameter `now` in milliseconds.
 */
module EmailChangeSession {
  import opened Base

  const SESSION_KEY: string := "emailChangeSession"
  const SESSION_EXPIRY: int := 10 * 60 * 1000

  datatype Step = Verify

  datatype Session = Session(newEmail: string, requestedAt: int, step: Step)

  /** What the slot can hold: the saved JSON, an empty string, or text that does not parse. */
  datatype StoredText = SessionJson(session: Session) | EmptyText | Unparsable

  /** Expired strictly after ten minutes: at exactly ten minutes the session still holds. */
  predicate Expired(s: Session, now: int)
  {
    now - s.requestedAt > SESSION_EXPIRY
  }

  /** What `get()` returns. */
  function Lookup(hasWindow: bool, slot: Option<StoredText>, now: int): (r: Option<Session>)
    ensures r.Some? <==> hasWindow && slot.Some? && slot.value.SessionJson? && !Expired(slot.value.session, now)
    ensures r.Some? ==> r.value == slot.value.session
  {
    if !hasWindow || slot.None? then None
    else match slot.value
      case EmptyText => None
      case Unparsable => None
      case SessionJson(s) => if Expired(s, now) then None else Some(s)
  }

  /** What `get()` leaves in the slot: cleared on expiry or on text that does not parse. */
  function SlotAfterLookup(hasWindow: bool, slot: Option<StoredText>, now: int): (r: Option<StoredText>)
    ensures r == slot || r == None
    ensures Lookup(hasWindow, slot, now).Some? ==> r == slot
  {
    if !hasWindow || slot.None? then slot
    else match slot.value
      case EmptyText => slot
      case Unparsable => None
      case SessionJson(s) => if Expired(s, now) then None else slot
  }

  /** `Math.max(0, Math.floor((SESSION_EXPIRY - elapsed) / 1000))`; `/` by a positive divisor is the floor. */
  function RemainingSeconds(s: Session, now: int): (r: int)
    ensures r >= 0
  {
    Max(0, (SESSION_EXPIRY - (now - s.requestedAt)) / 1000)
  }

  /**
   * A lookup is stable: what one `get()` leaves, the next `get()` at the same
   * moment reads the same way and leaves alone.
   */
  lemma LookupIdempotent(hasWindow: bool, slot: Option<StoredText>, now: int)
    ensures var after := SlotAfterLookup(hasWindow, slot, now);
      && Lookup(hasWindow, after, now) == Lookup(hasWindow, slot, now)
      && SlotAfterLookup(hasWindow, after, now) == after
  {
  }

  /**
   * After `save(e)` at `t`, the session reads back as saved until exactly
   * ten minutes later, and from then on is gone and cleared.
   */
  lemma SaveThenLookup(email: string, t: int, now: int)
    ensures var slot := Some(SessionJson(Session(email, t, Verify)));
      && (now - t <= SESSION_EXPIRY ==> Lookup(true, slot, now) == Some(Session(email, t, Verify)))
      && (now - t > SESSION_EXPIRY ==> Lookup(true, slot, now) == None && SlotAfterLookup(true, slot, now) == None)
  {
  }

  /**
   * For a session saved at or before `now`, the remaining time is the whole
   * seconds left of the ten minutes: at most 600, zero from 599 001 ms on,
   * and it never goes up as time passes.
   */
  lemma RemainingSecondsSpec(s: Session, now: int, later: int)
    requires s.requestedAt <= now <= later
    ensures RemainingSeconds(s, now) <= SESSION_EXPIRY / 1000
    ensures RemainingSeconds(s, now) * 1000 <= SESSION_EXPIRY - (now - s.requestedAt) || RemainingSeconds(s, now) == 0
    ensures RemainingSeconds(s, now) > 0 <==> now - s.requestedAt <= SESSION_EXPIRY - 1000
    ensures RemainingSeconds(s, later) <= RemainingSeconds(s, now)
  {
    var a := SESSION_EXPIRY - (now - s.requestedAt);
    var b := SESSION_EXPIRY - (later - s.requestedAt);
    assert b <= a;
  }

  /** A session saved in the future (a clock set back) reports more than ten minutes left. */
  lemma ClockSkewOverstates()
    ensures RemainingSeconds(Session("new@example.com", 5000, Verify), 0) == 605
  {
  }

  class SessionStorage {
    /** The value under SESSION_KEY. */
    var slot: Option<StoredText>
    /** Whether `window` is defined; on the server every call is a no-op. */
    var hasWindow: bool

    constructor(slot: Option<StoredText>, hasWindow: bool)
      ensures this.slot == slot && this.hasWindow == hasWindow
    {
      this.slot := slot;
      this.hasWindow := hasWindow;
    }

    /** `save(newEmail)` */
    method Save(newEmail: string, now: int)
      modifies this
      ensures slot == if hasWindow then Some(SessionJson(Session(newEmail, now, Verify))) else old(slot)
      ensures hasWindow == old(hasWindow)
    {
      var session := Session(newEmail, now, Verify);
      if hasWindow {
        slot := Some(SessionJson(session));
      }
    }

    /** `clear()` */
    method Clear()
      modifies this
      ensures slot == if hasWindow then None else old(slot)
      ensures hasWindow == old(hasWindow)
    {
      if hasWindow {
        slot := None;
      }
    }

    /** `get()` */
    method Get(now: int) returns (r: Option<Session>)
      modifies this
      ensures r == Lookup(hasWindow, old(slot), now)
      ensures slot == SlotAfterLookup(hasWindow, old(slot), now)
      ensures hasWindow == old(hasWindow)
    {
      if !hasWindow {
        return None;
      }
      var data := slot;
      if data.None? || data.value.EmptyText? {
        return None;
      }
      if data.value.Unparsable? {
        Clear();
        return None;
      }
      var session := data.value.session;
      if now - session.requestedAt > SESSION_EXPIRY {
        Clear();
        return None;
      }
      return Some(session);
    }

    /** `isValid()`: whether `get()` finds a session. */
    method IsValid(now: int) returns (valid: bool)
      modifies this
      ensures valid <==> Lookup(hasWindow, old(slot), now).Some?
      ensures slot == SlotAfterLookup(hasWindow, old(slot), now)
      ensures hasWindow == old(hasWindow)
    {
      var session := Get(now);
      valid := session.Some?;
    }

    /** `getRemainingTime()`: the whole seconds left, 0 without a session. */
    method GetRemainingTime(now: int) returns (seconds: int)
      modifies this
      ensures var found := Lookup(hasWindow, old(slot), now);
        seconds == if found.Some? then RemainingSeconds(found.value, now) else 0
      ensures seconds >= 0
      ensures slot == SlotAfterLookup(hasWindow, old(slot), now)
      ensures hasWindow == old(hasWindow)
    {
      var session := Get(now);
      if session.None? {
        return 0;
      }
      var elapsed := now - session.value.requestedAt;
      var remaining := SESSION_EXPIRY - elapsed;
      seconds := Max(0, remaining / 1000);
    }
  }
}
