// The admission table as the agent updates it in place: `RequestAdmission`, `claim`,
// `answered`, and what dropping a lease leaves behind.
module AdmissionTable {
  import opened Admission

  /** `retain`: one pass over the table. */
  method Retain(claims: map<string, Seen>, now: int) returns (kept: map<string, Seen>)
    ensures kept == Pruned(claims, now)
    ensures forall k :: k in kept <==> k in claims && now < claims[k].seenAt + 120
    ensures forall k :: k in kept ==> kept[k] == claims[k]
  {
    kept := map[];
    var todo := claims.Keys;
    while todo != {}
      invariant todo <= claims.Keys
      invariant kept.Keys == Pruned(claims, now).Keys - todo
      invariant forall k :: k in kept ==> kept[k] == claims[k]
    {
      var k :| k in todo;
      if now - claims[k].seenAt < RETENTION {
        kept := kept[k := claims[k]];
      }
      todo := todo - {k};
    }
  }

  /** `min_by_key` on the time seen; which of several oldest claims it picks is left open. */
  method OldestKey(claims: map<string, Seen>) returns (victim: string)
    requires claims != map[]
    ensures Oldest(claims, victim)
  {
    assert exists k :: k in claims by {
      assert claims.Keys != {};
    }
    victim :| victim in claims;
    var todo := claims.Keys - {victim};
    while todo != {}
      invariant todo <= claims.Keys && victim in claims
      invariant forall k :: k in claims && k !in todo ==> claims[victim].seenAt <= claims[k].seenAt
    {
      var k :| k in todo;
      if claims[k].seenAt < claims[victim].seenAt {
        victim := k;
      }
      todo := todo - {k};
    }
  }

  datatype Claim = OwnerOf(chan: nat) | AttachedTo(chan: nat) | DuplicateOf

  /** What a lane becomes with a claim in hand; a waiter remembers the owners it outlived. */
  function LaneAfter(x: Lane, req: Req, claim: Claim): Lane {
    match claim
    case OwnerOf(c) => Owner(req, c, false, PastOf(x))
    case AttachedTo(c) => Waiter(req, c, PastOf(x))
    case DuplicateOf => Over
  }

  /** The shared state, as lane `n` of `s` sees it just before it claims `req` or reclaims it. */
  predicate Sees(s: Sys, n: nat, req: Req, now: int, free: nat, claims: map<string, Seen>, chans: seq<Channel>) {
    && s.now == now && s.free == free && s.claims == claims && s.chans == chans
    && n in s.lanes && Claimable(s.lanes[n], chans) && s.lanes[n].req == req
  }

  /** A claim that leaves this table behind is a step of the machine. */
  ghost predicate IsClaimStep(s: Sys, n: nat, victim: string, x: Lane,
                              free: nat, claims: map<string, Seen>, chans: seq<Channel>) {
    && Enabled(s, Label.Claim(n, victim))
    && var t := Next(s, Label.Claim(n, victim));
       t.free == free && t.claims == claims && t.chans == chans && t.lanes == s.lanes[n := x]
  }

  class RequestAdmission {
    var free: nat
    var claims: map<string, Seen>
    var chans: seq<Channel>

    constructor ()
      ensures free == MAX_IN_FLIGHT && claims == map[] && chans == []
    {
      free, claims, chans := MAX_IN_FLIGHT, map[], [];
    }

    /** Admission never blocks: without a free permit the request is discarded. */
    method Reserve() returns (granted: bool)
      modifies this`free
      ensures granted <==> old(free) > 0
      ensures free == old(free) - (if granted then 1 else 0)
    {
      granted := free > 0;
      if granted {
        free := free - 1;
      }
    }

    /**
      Claims a request, on its first delivery or for a waiter whose owner died. Run in place
      it is exactly one claim step of the machine, whichever oldest claim had to make room.
     */
    method ClaimRequest(req: Req, now: int) returns (claim: Claim, ghost victim: string)
      modifies this
      ensures claim.DuplicateOf? <==> CaseOf(Pruned(old(claims), now), old(chans), req).Duplicate?
      ensures claim.AttachedTo? <==> CaseOf(Pruned(old(claims), now), old(chans), req).Attach?
      ensures forall s, n :: Sees(s, n, req, now, old(free), old(claims), old(chans)) ==>
                IsClaimStep(s, n, victim, LaneAfter(s.lanes[n], req, claim), free, claims, chans)
    {
      victim := "";
      var key := Key(req);
      claims := Retain(claims, now);
      if key in claims {
        var seen := claims[key];
        if seen.body != req.body {
          free := free + 1;
          return DuplicateOf, victim;
        }
        if StateOf(chans, seen.chan).Answered? {
          free := free + 1;
          return DuplicateOf, victim;
        }
        if StateOf(chans, seen.chan).Live? {
          if seen.attached {
            free := free + 1;
            return DuplicateOf, victim;
          }
          claims := claims[key := seen.(attached := true)];
          return AttachedTo(seen.chan), victim;
        }
      }
      if |claims| >= MAX_SEEN && key !in claims {
        var oldest := OldestKey(claims);
        victim := oldest;
        claims := claims - {oldest};
      }
      claims := claims[key := Seen(now, req.body, |chans|, false)];
      chans := chans + [Channel(req, Live)];
      claim := OwnerOf(|chans| - 1);
    }

    /** The owner records its answer: everyone on the channel sees it, and nothing else moves. */
    method Answered(chan: nat, outcome: Outcome)
      requires chan < |chans|
      modifies this`chans
      ensures |chans| == |old(chans)| && chans[chan].req == old(chans)[chan].req
      ensures StateOf(chans, chan) == ChanState.Answered(outcome)
      ensures forall c: nat :: c < |chans| && c != chan ==> chans[c] == old(chans)[c]
    {
      chans := chans[chan := chans[chan].(state := ChanState.Answered(outcome))];
    }
  }
}
