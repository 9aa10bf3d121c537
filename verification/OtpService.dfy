/** The login-code services over tables they update in place. */
module OtpService {
  import opened Wrappers
  import Otp

  class OtpStore {
    var next: nat
    var tokens: map<nat, Otp.Token>
    var parents: map<string, bool>

    constructor ()
      ensures Snapshot() == Otp.INIT.db
    {
      next, tokens, parents := 0, map[], map[];
    }

    function Snapshot(): Otp.Db
      reads this
    {
      Otp.Db(next, tokens, parents)
    }

    method RequestOtp(email: string, locked: bool, readAt: Otp.Moment, now: Otp.Moment, code: string)
      returns (error: Option<Otp.OtpError>)
      modifies this
      ensures match Otp.RequestOtp(old(Snapshot()), email, locked, readAt, now, code)
              case Success(db) => error == None && Snapshot() == db
              case Failure(e) => error == Some(e) && Snapshot() == old(Snapshot())
      ensures if error == None then Otp.Issued(old(Snapshot()), Snapshot(), email, readAt, now, code)
              else Snapshot() == old(Snapshot()) && error.value.CooldownError? && error.value.retryAfter >= 1
      ensures Otp.Numbered(old(Snapshot())) ==>
                && Otp.Numbered(Snapshot())
                && (error == None <==> locked && Otp.MayRequest(old(Snapshot()), email, readAt))
                && (error.Some? ==> Otp.RequestRefused(old(Snapshot()), email, locked, readAt, error.value))
    {
      if Otp.Numbered(Snapshot()) {
        Otp.RequestAnswers(Snapshot(), email, locked, readAt, now, code);
      }
      Otp.RequestEffect(Snapshot(), email, locked, readAt, now, code);
      if !locked {
        return Some(Otp.CooldownError(Otp.COOLDOWN_SECONDS));
      }
      var last := Otp.LastCreated(Snapshot(), email, next);
      if last.Some? && last.value > readAt - Otp.COOLDOWN {
        var elapsed := readAt - last.value;
        var remaining := Otp.COOLDOWN_SECONDS - Otp.WholeSeconds(elapsed);
        if remaining < 1 {
          remaining := 1;
        }
        return Some(Otp.CooldownError(remaining));
      }
      Issue(email, readAt, now, code);
      error := None;
    }

    /** Uses up the older codes of the email and stores the new one. */
    method Issue(email: string, readAt: Otp.Moment, now: Otp.Moment, code: string)
      modifies `tokens, `next
      ensures tokens == Otp.BurnUnused(old(tokens), email)[old(next) := Otp.Token(email, code, readAt + Otp.TTL, 0, false, now)]
      ensures next == old(next) + 1
    {
      tokens := map id <- tokens :: if tokens[id].email == email && !tokens[id].used then tokens[id].(used := true) else tokens[id];
      tokens := tokens[next := Otp.Token(email, code, readAt + Otp.TTL, 0, false, now)];
      next := next + 1;
    }

    method VerifyOtp(email: string, code: string, now: Otp.Moment) returns (error: Option<Otp.OtpError>)
      modifies this
      ensures (Snapshot(), error) == Otp.VerifyOtp(old(Snapshot()), email, code, now)
      ensures error == None ==> email in parents && parents[email]
                                && (forall id <- tokens :: tokens[id].email == email ==> tokens[id].used)
      ensures Otp.Numbered(old(Snapshot())) ==>
                Otp.Numbered(Snapshot()) && Otp.VerifyIs(old(Snapshot()), email, code, now, Snapshot(), error)
    {
      if Otp.Numbered(Snapshot()) {
        Otp.VerifyAnswers(Snapshot(), email, code, now);
      }
      error := None;
      var found := Otp.NewestUnused(Snapshot(), email, next);
      if found.None? {
        error := Some(Otp.NotFoundError);
      } else {
        var id := found.value;
        if tokens[id].expiresAt < now {
          error := Some(Otp.ExpiredError);
        } else if tokens[id].attempts >= Otp.MAX_ATTEMPTS {
          error := Some(Otp.BruteForceError);
        } else if tokens[id].code != code {
          tokens := tokens[id := tokens[id].(attempts := tokens[id].attempts + 1)];
          error := Some(Otp.InvalidError);
        } else {
          tokens := tokens[id := tokens[id].(used := true)];
          tokens := map k <- tokens :: if tokens[k].email == email && !tokens[k].used then tokens[k].(used := true) else tokens[k];
          assert tokens == Otp.BurnUnused(old(tokens), email);
          if email !in parents {
            parents := parents[email := true];
          }
          if !parents[email] {
            error := Some(Otp.InvalidError);
          }
        }
      }
    }

    method PurgeStaleOtpTokens(now: Otp.Moment) returns (expiredUnused: nat, retiredUsed: nat)
      modifies this
      ensures Snapshot() == Otp.Purge(old(Snapshot()), now)
      ensures tokens == map id <- old(tokens) | now <= old(tokens)[id].expiresAt
                              + (if old(tokens)[id].used then 30 * 24 * 60 * 60 * 1_000_000 else 0) :: old(tokens)[id]
      ensures expiredUnused == |set id <- old(tokens) | !old(tokens)[id].used && old(tokens)[id].expiresAt < now|
      ensures retiredUsed == |set id <- old(tokens) | old(tokens)[id].used && old(tokens)[id].expiresAt < now - Otp.USED_RETENTION|
    {
      var dead := set id <- tokens | !tokens[id].used && tokens[id].expiresAt < now;
      assert dead == set id <- old(tokens) | !old(tokens)[id].used && old(tokens)[id].expiresAt < now;
      tokens := tokens - dead;
      expiredUnused := |dead|;
      var retired := set id <- tokens | tokens[id].used && tokens[id].expiresAt < now - Otp.USED_RETENTION;
      assert retired == set id <- old(tokens) | old(tokens)[id].used && old(tokens)[id].expiresAt < now - Otp.USED_RETENTION;
      tokens := tokens - retired;
      retiredUsed := |retired|;
    }
  }
}
