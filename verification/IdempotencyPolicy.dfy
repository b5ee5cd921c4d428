/** What failing closed buys: overlapping runs within unexpired claims are impossible
    under FailClosed and possible under FailOpen. */
module IdempotencyPolicy {
  import opened Prelude
  import opened Idempotency
  import opened IdempotencySafety
  import opened IdempotencyReruns

  /** Two runs of the work on one key, both claims still good. */
  ghost predicate Collides(cfg: Config, actions: seq<Action>, s: State, i: Tid, j: Tid) {
    && Started(cfg, s, actions)
    && var z := After(cfg, s, actions);
    && i != j && i in z.execs && j in z.execs && z.execs[i].key == z.execs[j].key
    && z.execs[i].pc.Running? && z.execs[j].pc.Running?
    && z.now < z.execs[i].pc.claim.expires && z.now < z.execs[j].pc.claim.expires
  }

  lemma FailOpenCollides(cfg: Config) returns (s: State, actions: seq<Action>)
    requires 0 < cfg.inFlightTTL && cfg.policy.FailOpen?
    ensures Collides(cfg, actions, s, 0, 1)
  {
    s := State(0, map[], map[], map[], map[], map[]);
    actions := Grow(cfg, s, [], Arrive(0, "k", "f", 1));
    actions := Grow(cfg, s, actions, Arrive(1, "k", "f", 1));
    actions := ReachesWork(cfg, s, actions, 0, "a");
    actions := ReachesWork(cfg, s, actions, 1, "b");
  }

  /** Two runs can hold good claims to one key at once if and only if reads fail open. */
  lemma OnlyFailOpenCollides(cfg: Config)
    requires 0 < cfg.inFlightTTL
    ensures (exists s, actions, i, j :: Collides(cfg, actions, s, i, j)) <==> cfg.policy.FailOpen?
  {
    if cfg.policy.FailOpen? {
      var s, actions := FailOpenCollides(cfg);
    } else {
      forall s, actions, i, j ensures !Collides(cfg, actions, s, i, j) {
        if Collides(cfg, actions, s, i, j) {
          OverlapOnlyAfterExpiry(cfg, s, actions, i, j);
        }
      }
    }
  }
}
