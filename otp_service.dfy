/**
 * lib/services/otp.service.ts: one-time passwords kept in Redis. A code is
 * stored under "otp:" + email with an attempt counter; wrong guesses count
 * up to a lockout under "otp:lock:" + email; sends are rate limited by two
 * counters under "otp:send:" + email and "otp:send:" + ip. Redis keys with a
 * TTL become entries with an absolute deadline, in seconds of a clock `now`
 * passed to every call; an entry is live while `now` is before its deadline.
 */
module OtpService {
  import opened Base

  // OTP_CONFIG (lib/constants.ts)
  const EXPIRY_MINUTES: int := 10
  const MAX_SEND_PER_EMAIL: int := 50
  const MAX_SEND_PER_IP: int := 100
  const MAX_VERIFY_ATTEMPTS: int := 50
  const LOCKOUT_MINUTES: int := 2
  const RATE_LIMIT_WINDOW: int := 2

  const EXPIRY_SECONDS: int := EXPIRY_MINUTES * 60
  const LOCKOUT_SECONDS: int := LOCKOUT_MINUTES * 60
  const WINDOW_SECONDS: int := RATE_LIMIT_WINDOW * 60

  function OtpKey(email: string): string { "otp:" + email }
  function LockKey(email: string): string { "otp:lock:" + email }
  function SendKey(who: string): string { "otp:send:" + who }

  /** The JSON record `{ otp, attempts, createdAt }`. */
  datatype OtpRecord = OtpRecord(otp: string, attempts: int, createdAt: int)

  /** A value with the deadline its TTL gives it. */
  datatype Timed<T> = Timed(value: T, deadline: int)

  type Store<T> = map<string, Timed<T>>

  /** `redis.get`: the value while it lives, `null` once its TTL ran out or when it was never set. */
  function Get<T>(s: Store<T>, key: string, now: int): (r: Option<T>)
    ensures r.Some? <==> key in s && now < s[key].deadline
    ensures r.Some? ==> r.value == s[key].value
  {
    if key in s && now < s[key].deadline then Some(s[key].value) else None
  }

  // ---------------------------------------------------------------------------
  // verifyOTP

  datatype VerifyResult =
    | Verified                    // "Xác thực thành công!"
    | Locked                      // the lock key is set
    | NoCode                      // no live code: never sent, used, or expired
    | WrongCode(remaining: int)   // the tries left
    | TooManyAttempts             // this guess set the lock

  datatype OtpKeys = OtpKeys(codes: Store<OtpRecord>, locks: Store<string>)

  datatype Verification = Verification(result: VerifyResult, keys: OtpKeys)

  /** The effect of `verifyOTP(email, input)` at time `now`. */
  function Verify(k: OtpKeys, email: string, input: string, now: int): Verification
  {
    if Get(k.locks, LockKey(email), now).Some? then Verification(Locked, k)
    else match Get(k.codes, OtpKey(email), now)
      case None => Verification(NoCode, k)
      case Some(rec) =>
        if rec.otp != input then
          var attempts := rec.attempts + 1;
          if attempts >= MAX_VERIFY_ATTEMPTS then
            Verification(TooManyAttempts,
                         OtpKeys(k.codes - {OtpKey(email)}, k.locks[LockKey(email) := Timed("1", now + LOCKOUT_SECONDS)]))
          else
            Verification(WrongCode(MAX_VERIFY_ATTEMPTS - attempts),
                         OtpKeys(k.codes[OtpKey(email) := Timed(rec.(attempts := attempts), now + EXPIRY_SECONDS)], k.locks))
        else
          Verification(Verified, OtpKeys(k.codes - {OtpKey(email)}, k.locks))
  }

  /** The record `saveOTP` writes: no attempts yet, alive for the expiry window. */
  function Saved(k: OtpKeys, email: string, otp: string, now: int, createdAt: int): (r: OtpKeys)
    ensures Get(r.codes, OtpKey(email), now) == Some(OtpRecord(otp, 0, createdAt))
    ensures r.locks == k.locks
  {
    k.(codes := k.codes[OtpKey(email) := Timed(OtpRecord(otp, 0, createdAt), now + EXPIRY_SECONDS)])
  }

  /**
   * While the account is locked, or when there is no live code, verification
   * fails and writes nothing.
   */
  lemma FailuresWithoutWrites(k: OtpKeys, email: string, input: string, now: int)
    ensures var v := Verify(k, email, input, now);
      && (Get(k.locks, LockKey(email), now).Some? ==> v == Verification(Locked, k))
      && (Get(k.locks, LockKey(email), now).None? && Get(k.codes, OtpKey(email), now).None? ==> v == Verification(NoCode, k))
      && (v.result == Locked || v.result == NoCode ==> v.keys == k)
  {
  }

  /**
   * Verification succeeds exactly when the account is not locked and a live
   * code matches; it then consumes the code, so the same code cannot succeed
   * again at this or any later time.
   */
  lemma SingleUse(k: OtpKeys, email: string, input: string, now: int, later: int)
    requires now <= later
    ensures var v := Verify(k, email, input, now);
      && (v.result == Verified <==>
            Get(k.locks, LockKey(email), now).None?
            && Get(k.codes, OtpKey(email), now).Some? && Get(k.codes, OtpKey(email), now).value.otp == input)
      && (v.result == Verified ==>
            && v.keys.locks == k.locks
            && Verify(v.keys, email, input, later).result != Verified)
  {
    var v := Verify(k, email, input, now);
    if v.result == Verified {
      assert OtpKey(email) !in v.keys.codes;
    }
  }

  /**
   * A wrong guess on a live code counts one more attempt. Below the limit the
   * code is rewritten with the count, alive for a fresh expiry window, and the
   * reply gives the tries left; at the limit the code is deleted and the
   * account locked for the lockout period, so further guesses meet the lock.
   */
  lemma WrongGuess(k: OtpKeys, email: string, input: string, now: int)
    requires Get(k.locks, LockKey(email), now).None?
    requires Get(k.codes, OtpKey(email), now).Some?
    requires Get(k.codes, OtpKey(email), now).value.otp != input
    ensures var rec := Get(k.codes, OtpKey(email), now).value;
      var v := Verify(k, email, input, now);
      && (rec.attempts + 1 < MAX_VERIFY_ATTEMPTS ==>
            && v.result == WrongCode(MAX_VERIFY_ATTEMPTS - (rec.attempts + 1))
            && v.result.remaining > 0
            && Get(v.keys.codes, OtpKey(email), now + EXPIRY_SECONDS - 1) == Some(rec.(attempts := rec.attempts + 1)))
      && (rec.attempts + 1 >= MAX_VERIFY_ATTEMPTS ==>
            && v.result == TooManyAttempts
            && Get(v.keys.codes, OtpKey(email), now) == None
            && forall t, guess :: now <= t < now + LOCKOUT_SECONDS ==> Verify(v.keys, email, guess, t).result == Locked)
  {
  }

  /** Verifying `inputs` one after another at the same moment. */
  function VerifyAll(k: OtpKeys, email: string, inputs: seq<string>, now: int): (r: Verification)
    decreases |inputs|
  {
    if inputs == [] then Verification(NoCode, k)
    else
      var before := VerifyAll(k, email, inputs[..|inputs| - 1], now);
      Verify(before.keys, email, inputs[|inputs| - 1], now)
  }

  /**
   * From a freshly saved code, every run of wrong guesses is counted:
   * fewer than the limit leaves the code with that many attempts, and the
   * guess that reaches the limit locks the account.
   */
  lemma {:induction false} GuessesCounted(k: OtpKeys, email: string, otp: string, createdAt: int, guesses: seq<string>, now: int)
    requires Get(k.locks, LockKey(email), now).None?
    requires forall i :: 0 <= i < |guesses| ==> guesses[i] != otp
    requires |guesses| <= MAX_VERIFY_ATTEMPTS
    ensures var v := VerifyAll(Saved(k, email, otp, now, createdAt), email, guesses, now);
      && (|guesses| < MAX_VERIFY_ATTEMPTS ==>
            && Get(v.keys.codes, OtpKey(email), now) == Some(OtpRecord(otp, |guesses|, createdAt))
            && Get(v.keys.locks, LockKey(email), now).None?)
      && (0 < |guesses| < MAX_VERIFY_ATTEMPTS ==> v.result == WrongCode(MAX_VERIFY_ATTEMPTS - |guesses|))
      && (|guesses| == MAX_VERIFY_ATTEMPTS ==> v.result == TooManyAttempts && Get(v.keys.locks, LockKey(email), now).Some?)
    decreases |guesses|
  {
    var s := Saved(k, email, otp, now, createdAt);
    if guesses != [] {
      var init := guesses[..|guesses| - 1];
      GuessesCounted(k, email, otp, createdAt, init, now);
      var before := VerifyAll(s, email, init, now);
      assert Get(before.keys.codes, OtpKey(email), now) == Some(OtpRecord(otp, |init|, createdAt));
      WrongGuess(before.keys, email, guesses[|guesses| - 1], now);
    }
  }

  // ---------------------------------------------------------------------------
  // checkSendRateLimit

  datatype SendDecision =
    | Allowed
    | EmailLimited   // "Bạn đã gửi quá nhiều OTP..."
    | IpLimited      // "Quá nhiều yêu cầu từ địa chỉ này..."

  /** A counter read: `incr` when it is live, else a fresh 1 for the window. */
  function Bump(counters: Store<int>, key: string, seen: Option<int>, now: int): Store<int>
  {
    if seen.Some? && key in counters then counters[key := Timed(counters[key].value + 1, counters[key].deadline)]
    else counters[key := Timed(1, now + WINDOW_SECONDS)]
  }

  /**
   * The effect of `checkSendRateLimit(email, ip)`: both counters are read
   * first; the email limit is checked before the IP limit; on allow, the
   * email counter then the IP counter is bumped.
   */
  function RateLimit(counters: Store<int>, email: string, ip: string, now: int): (SendDecision, Store<int>)
  {
    var emailCount := Get(counters, SendKey(email), now);
    var ipCount := Get(counters, SendKey(ip), now);
    if emailCount.Some? && emailCount.value >= MAX_SEND_PER_EMAIL then (EmailLimited, counters)
    else if ipCount.Some? && ipCount.value >= MAX_SEND_PER_IP then (IpLimited, counters)
    else (Allowed, Bump(Bump(counters, SendKey(email), emailCount, now), SendKey(ip), ipCount, now))
  }

  /**
   * A denial writes nothing. An allow bumps each counter by one, or starts it
   * at 1 for the window; neither counter then exceeds its limit, and every
   * other key is left alone.
   */
  lemma RateLimitSpec(counters: Store<int>, email: string, ip: string, now: int)
    requires SendKey(email) != SendKey(ip)
    ensures var (d, after) := RateLimit(counters, email, ip, now);
      var e := Get(counters, SendKey(email), now);
      var i := Get(counters, SendKey(ip), now);
      && (d == EmailLimited <==> e.Some? && e.value >= MAX_SEND_PER_EMAIL)
      && (d == IpLimited <==> !(e.Some? && e.value >= MAX_SEND_PER_EMAIL) && i.Some? && i.value >= MAX_SEND_PER_IP)
      && (d != Allowed ==> after == counters)
      && (d == Allowed ==>
            && Get(after, SendKey(email), now) == Some(if e.Some? then e.value + 1 else 1)
            && Get(after, SendKey(ip), now) == Some(if i.Some? then i.value + 1 else 1)
            && (e.Some? && e.value >= 0 ==> Get(after, SendKey(email), now).value <= MAX_SEND_PER_EMAIL)
            && (i.Some? && i.value >= 0 ==> Get(after, SendKey(ip), now).value <= MAX_SEND_PER_IP))
      && forall key :: key != SendKey(email) && key != SendKey(ip) ==> (key in after <==> key in counters) && (key in counters ==> after[key] == counters[key])
  {
  }

  /**
   * The email and the IP counters share the "otp:send:" prefix, so an email
   * equal to an address string shares its counter, which one allowed send
   * then bumps twice.
   */
  lemma SharedSendPrefix(counters: Store<int>, who: string, now: int)
    requires Get(counters, SendKey(who), now) == Some(3)
    ensures var (d, after) := RateLimit(counters, who, who, now);
      d == Allowed && Get(after, SendKey(who), now) == Some(5)
  {
  }

  /** Sends of one email at one moment, each from its own address. */
  function SendAll(counters: Store<int>, email: string, ips: seq<string>, now: int): (r: (nat, Store<int>))
    decreases |ips|
  {
    if ips == [] then (0, counters)
    else
      var (allowed, before) := SendAll(counters, email, ips[..|ips| - 1], now);
      var (d, after) := RateLimit(before, email, ips[|ips| - 1], now);
      (if d == Allowed then allowed + 1 else allowed, after)
  }

  /**
   * However many addresses ask, one email is allowed at most
   * MAX_SEND_PER_EMAIL sends within a window that starts empty.
   */
  lemma {:induction false} EmailSendsBounded(counters: Store<int>, email: string, ips: seq<string>, now: int)
    requires Get(counters, SendKey(email), now).None?
    requires forall i :: 0 <= i < |ips| ==> SendKey(ips[i]) != SendKey(email)
    ensures var (allowed, after) := SendAll(counters, email, ips, now);
      && allowed <= MAX_SEND_PER_EMAIL
      && (allowed == 0 ==> Get(after, SendKey(email), now).None?)
      && (allowed > 0 ==> Get(after, SendKey(email), now) == Some(allowed))
    decreases |ips|
  {
    if ips != [] {
      var init := ips[..|ips| - 1];
      EmailSendsBounded(counters, email, init, now);
      var (allowed, before) := SendAll(counters, email, init, now);
      RateLimitSpec(before, email, ips[|ips| - 1], now);
    }
  }

  // ---------------------------------------------------------------------------
  // getOTPExpiry

  /** `redis.ttl`: -2 for a missing key, otherwise the seconds left. */
  function Ttl<T>(s: Store<T>, key: string, now: int): int
  {
    if Get(s, key, now).None? then -2 else s[key].deadline - now
  }

  function OtpExpiry(codes: Store<OtpRecord>, email: string, now: int): (r: int)
    ensures r >= 0
    ensures r > 0 <==> Get(codes, OtpKey(email), now).Some?
  {
    var ttl := Ttl(codes, OtpKey(email), now);
    if ttl > 0 then ttl else 0
  }

  /** After a save, the reported expiry counts down from the full window to 0 and stays there. */
  lemma ExpiryAfterSave(k: OtpKeys, email: string, otp: string, saved: int, createdAt: int, now: int)
    requires saved <= now
    ensures OtpExpiry(Saved(k, email, otp, saved, createdAt).codes, email, now) == Max(saved + EXPIRY_SECONDS - now, 0)
    ensures OtpExpiry(Saved(k, email, otp, saved, createdAt).codes, email, now) <= EXPIRY_SECONDS
  {
  }

  // ---------------------------------------------------------------------------
  // The service over the Redis keys it uses

  class OtpRedis {
    var codes: Store<OtpRecord>
    var locks: Store<string>
    var counters: Store<int>

    constructor()
      ensures codes == map[] && locks == map[] && counters == map[]
    {
      codes, locks, counters := map[], map[], map[];
    }

    /** `saveOTP`: a fresh record with no attempts, replacing any earlier code. */
    method SaveOTP(email: string, otp: string, now: int, createdAt: int)
      modifies this
      ensures OtpKeys(codes, locks) == Saved(old(OtpKeys(codes, locks)), email, otp, now, createdAt)
      ensures counters == old(counters)
    {
      codes := codes[OtpKey(email) := Timed(OtpRecord(otp, 0, createdAt), now + EXPIRY_SECONDS)];
    }

    /** `verifyOTP` */
    method VerifyOTP(email: string, inputOTP: string, now: int) returns (r: VerifyResult)
      modifies this
      ensures Verification(r, OtpKeys(codes, locks)) == Verify(old(OtpKeys(codes, locks)), email, inputOTP, now)
      ensures counters == old(counters)
    {
      var lockKey := LockKey(email);
      if lockKey in locks && now < locks[lockKey].deadline {
        return Locked;
      }
      var key := OtpKey(email);
      if !(key in codes && now < codes[key].deadline) {
        return NoCode;
      }
      var otpData := codes[key].value;
      if otpData.otp != inputOTP {
        otpData := otpData.(attempts := otpData.attempts + 1);
        if otpData.attempts >= MAX_VERIFY_ATTEMPTS {
          locks := locks[lockKey := Timed("1", now + LOCKOUT_SECONDS)];
          codes := codes - {key};
          return TooManyAttempts;
        }
        codes := codes[key := Timed(otpData, now + EXPIRY_SECONDS)];
        return WrongCode(MAX_VERIFY_ATTEMPTS - otpData.attempts);
      }
      codes := codes - {key};
      return Verified;
    }

    /** `checkSendRateLimit` */
    method CheckSendRateLimit(email: string, ip: string, now: int) returns (d: SendDecision)
      modifies this
      ensures (d, counters) == RateLimit(old(counters), email, ip, now)
      ensures codes == old(codes) && locks == old(locks)
    {
      var emailKey, ipKey := SendKey(email), SendKey(ip);
      var emailCount := Get(counters, emailKey, now);
      if emailCount.Some? && emailCount.value >= MAX_SEND_PER_EMAIL {
        return EmailLimited;
      }
      var ipCount := Get(counters, ipKey, now);
      if ipCount.Some? && ipCount.value >= MAX_SEND_PER_IP {
        return IpLimited;
      }
      if emailCount.Some? {
        counters := counters[emailKey := Timed(counters[emailKey].value + 1, counters[emailKey].deadline)];
      } else {
        counters := counters[emailKey := Timed(1, now + WINDOW_SECONDS)];
      }
      if ipCount.Some? && ipKey in counters {
        counters := counters[ipKey := Timed(counters[ipKey].value + 1, counters[ipKey].deadline)];
      } else {
        counters := counters[ipKey := Timed(1, now + WINDOW_SECONDS)];
      }
      return Allowed;
    }

    /** `getOTPExpiry` */
    function GetOTPExpiry(email: string, now: int): (r: int)
      reads this
      ensures r >= 0
    {
      OtpExpiry(codes, email, now)
    }
  }
}
