/** The refresh-token bucket: atomic consume, and the three bulk deletions. */
module RefreshTokens {
  import opened Prelude

  datatype RefreshToken = RefreshToken(
    family: string, user: string, used: bool, expiresAt: int, app: string, audience: string)

  type Tokens = map<string, RefreshToken>

  datatype Consumption = NotFound | Reused(token: RefreshToken) | Accepted(token: RefreshToken)

  function Consume(tokens: Tokens, id: string): Consumption {
    if id !in tokens then NotFound
    else if tokens[id].used then Reused(tokens[id])
    else Accepted(tokens[id].(used := true))
  }

  function AfterConsume(tokens: Tokens, id: string): Tokens {
    var c := Consume(tokens, id);
    if c.Accepted? then tokens[id := c.token] else tokens
  }

  function WithoutFamily(tokens: Tokens, family: string): Tokens {
    map id | id in tokens && tokens[id].family != family :: tokens[id]
  }

  function WithoutUser(tokens: Tokens, user: string): Tokens {
    map id | id in tokens && tokens[id].user != user :: tokens[id]
  }

  /** A token expires strictly after its expiry instant. */
  function WithoutExpired(tokens: Tokens, now: int): Tokens {
    map id | id in tokens && !(tokens[id].expiresAt < now) :: tokens[id]
  }

  function Successor(from: RefreshToken, user: string, expiresAt: int, audience: string): RefreshToken {
    RefreshToken(from.family, user, false, expiresAt, from.app, audience)
  }

  /** Revoking and cleaning remove exactly the tokens they name, and leave the others as they are. */
  lemma RemovalsAreExact(tokens: Tokens, family: string, user: string, now: int, id: string)
    requires id in tokens
    ensures id in WithoutFamily(tokens, family) <==> tokens[id].family != family
    ensures id in WithoutUser(tokens, user) <==> tokens[id].user != user
    ensures id in WithoutExpired(tokens, now) <==> now <= tokens[id].expiresAt
    ensures id in WithoutFamily(tokens, family) ==> WithoutFamily(tokens, family)[id] == tokens[id]
    ensures id in WithoutUser(tokens, user) ==> WithoutUser(tokens, user)[id] == tokens[id]
    ensures id in WithoutExpired(tokens, now) ==> WithoutExpired(tokens, now)[id] == tokens[id]
  {
  }

  /** A rotation hands over: the old token is spent, and the new one can be consumed, once, in its family and app. */
  lemma RotationHandsOver(tokens: Tokens, id: string, newID: string, user: string, expiresAt: int, audience: string)
    requires Consume(tokens, id).Accepted? && newID != id
    ensures var rotated := tokens[id := Consume(tokens, id).token]
                                 [newID := Successor(Consume(tokens, id).token, user, expiresAt, audience)];
            var next := Consume(rotated, newID);
            && Consume(rotated, id).Reused? && next.Accepted?
            && next.token.family == tokens[id].family && next.token.app == tokens[id].app
            && next.token.user == user && next.token.expiresAt == expiresAt && next.token.audience == audience
            && Consume(AfterConsume(rotated, newID), newID).Reused?
  {
  }

  class RefreshStore {
    var tokens: Tokens

    constructor ()
      ensures tokens == map[]
    {
      tokens := map[];
    }

    /** Like every Put, a save under the empty key fails. */
    method SaveRefreshToken(id: string, token: RefreshToken) returns (ok: bool)
      modifies this
      ensures ok == (id != "") && tokens == if ok then old(tokens)[id := token] else old(tokens)
    {
      if id == "" { return false; }
      tokens := tokens[id := token];
      ok := true;
    }

    /** Check-and-mark in one transaction; a reused token is returned so its family can be revoked. */
    method ConsumeRefreshToken(id: string) returns (r: Consumption)
      modifies this
      ensures r == Consume(old(tokens), id)
      ensures tokens == AfterConsume(old(tokens), id)
    {
      if id !in tokens { return NotFound; }
      var rt := tokens[id];
      if rt.used { return Reused(rt); }
      rt := rt.(used := true);
      tokens := tokens[id := rt];
      r := Accepted(rt);
    }

    /** Bolt collects the keys first: a bucket must not change while it is walked. */
    method DeleteAll(doomed: set<string>)
      modifies this
      ensures tokens == old(tokens) - doomed
    {
      var todo := doomed;
      while todo != {}
        invariant todo <= doomed
        invariant tokens == old(tokens) - (doomed - todo)
        decreases todo
      {
        var id :| id in todo;
        tokens := tokens - {id};
        todo := todo - {id};
      }
    }

    method RevokeTokenFamily(family: string)
      modifies this
      ensures tokens == WithoutFamily(old(tokens), family)
      ensures forall id :: id in tokens <==> id in old(tokens) && old(tokens)[id].family != family
    {
      var toDelete := set id | id in tokens && tokens[id].family == family;
      DeleteAll(toDelete);
    }

    method RevokeUserTokens(user: string)
      modifies this
      ensures tokens == WithoutUser(old(tokens), user)
      ensures forall id :: id in tokens <==> id in old(tokens) && old(tokens)[id].user != user
    {
      var toDelete := set id | id in tokens && tokens[id].user == user;
      DeleteAll(toDelete);
    }

    method CleanExpired(now: int)
      modifies this
      ensures tokens == WithoutExpired(old(tokens), now)
      ensures forall id :: id in tokens <==> id in old(tokens) && now <= old(tokens)[id].expiresAt
    {
      var toDelete := set id | id in tokens && tokens[id].expiresAt < now;
      DeleteAll(toDelete);
    }

    /**
     The refresh handlers when nothing runs between their store calls. `admitted` is the verdict of the checks
     between consume and save: expiry, user, app and assignment. A failed check or save leaves the token consumed.
     */
    method HandleRefresh(id: string, admitted: bool, newID: string, user: string, expiresAt: int, audience: string)
      returns (ok: bool)
      modifies this
      ensures var c, before := Consume(old(tokens), id), old(tokens);
              && ok == (c.Accepted? && admitted && newID != "")
              && tokens == (match c
                            case NotFound => before
                            case Reused(rt) => WithoutFamily(before, rt.family)
                            case Accepted(rt) =>
                              var marked := before[id := rt];
                              if ok then marked[newID := Successor(rt, user, expiresAt, audience)] else marked)
    {
      var c := ConsumeRefreshToken(id);
      if c.Reused? {
        RevokeTokenFamily(c.token.family);
        return false;
      }
      if c.NotFound? || !admitted { return false; }
      ok := SaveRefreshToken(newID, Successor(c.token, user, expiresAt, audience));
    }
  }
}
