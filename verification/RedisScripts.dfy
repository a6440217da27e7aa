/** The Redis scripts as they run, command by command, against the function that specifies each. */
module RedisScripts {
  import opened Prelude
  import opened SessionStore

  /** Taking values away in two rounds is taking their union away at once. */
  lemma RemoveTwice<K, V>(sets: map<K, Timed<set<V>>>, key: K, first: set<V>, second: set<V>)
    requires NoEmpty(sets)
    ensures RemoveAll(RemoveAll(sets, key, first), key, second) == RemoveAll(sets, key, first + second)
    ensures NoEmpty(RemoveAll(sets, key, first))
  {
    if key in sets && !(sets[key].value <= first) {
      var x :| x in sets[key].value && x !in first;
      assert x in sets[key].value - first;
      assert sets[key].value - first - second == sets[key].value - (first + second);
    }
  }

  /** Taking nothing away changes nothing. */
  lemma RemoveNone<K, V>(sets: map<K, Timed<set<V>>>, key: K)
    requires NoEmpty(sets)
    ensures RemoveAll(sets, key, {}) == sets
  {
    if key in sets {
      assert sets[key].value - {} == sets[key].value;
    }
  }

  lemma UnindexOne(sess: map<Subject, Timed<set<Member>>>, owner: Option<Subject>, gone: set<Hash>, hash: Hash)
    requires NoEmpty(sess)
    ensures NoEmpty(Unindexed(sess, owner, gone))
    ensures Unindexed(sess, owner, gone + {hash}) ==
            if owner.None? then sess else RemoveAll(Unindexed(sess, owner, gone), owner.value, {Live(hash)})
  {
    if owner.Some? {
      RemoveTwice(sess, owner.value, set h | h in gone :: Live(h), {Live(hash)});
    }
    assert (set h | h in gone + {hash} :: Live(h)) == (set h | h in gone :: Live(h)) + {Live(hash)};
  }

  lemma UnindexNone(sess: map<Subject, Timed<set<Member>>>, owner: Option<Subject>, gone: set<Hash>)
    requires NoEmpty(sess) && gone == {}
    ensures Unindexed(sess, owner, gone) == sess
  {
    assert (set h | h in gone :: Live(h)) == {};
    if owner.Some? {
      RemoveNone(sess, owner.value);
    }
  }

  lemma MinusOne<K, V>(m: map<K, V>, gone: set<K>, key: K)
    ensures m - (gone + {key}) == m - gone - {key}
  {
  }

  lemma LeftOne<T>(all: set<T>, left: set<T>, x: T)
    requires x in left && left <= all
    ensures all - (left - {x}) == all - left + {x}
  {
  }

  /** The member, if its key is gone. */
  function Missing(rt: map<Hash, Timed<Record>>, rp: map<Hash, Timed<Pointer>>, member: Member): set<Member> {
    if Exists(rt, rp, member) then {} else {member}
  }

  lemma DeadNone(rt: map<Hash, Timed<Record>>, rp: map<Hash, Timed<Pointer>>, members: set<Member>)
    requires members == {}
    ensures Dead(rt, rp, members) == {}
  {
  }

  lemma DeadOne(rt: map<Hash, Timed<Record>>, rp: map<Hash, Timed<Pointer>>, members: set<Member>, x: Member)
    ensures Dead(rt, rp, members + {x}) == Dead(rt, rp, members) + Missing(rt, rp, x)
  {
  }

  lemma RemovedMembers<K, V>(sets: map<K, Timed<set<V>>>, key: K, values: set<V>)
    ensures Members(RemoveAll(sets, key, values), key) == Members(sets, key) - values
  {
  }

  /** Of the members of an index, only the kept session is left once the other sessions and all the grace
      pointers are taken away. */
  lemma OnlyKeptLeft(members: set<Member>, listed: set<Hash>, kept: Hash)
    requires listed == (set m | m in members && m.Live? :: m.hash) - {kept}
    ensures var rest := members - set h | h in listed :: Live(h);
            rest - (set m | m in rest && m.Grace?) == members * {Live(kept)}
  {
    forall m | m in members && m.Live? && m.hash != kept
      ensures m.hash in listed && m == Live(m.hash)
    {
    }
  }

  /** The keyspaces of a live rotation, one by one. */
  lemma RotatedIs(s: Store, t: Store, cfg: Config, token: Hash, drawn: Hash, record: Record)
    requires t.now == s.now && t.sd == s.sd && t.ep == s.ep
    requires t.rt == s.rt[drawn := Timed(record, s.now + cfg.refreshTtl)] - {token}
    requires t.rp == if cfg.graceTtl > 0 then s.rp[token := Timed(Pointer(drawn, record), s.now + cfg.graceTtl)] else s.rp
    requires t.cf == if record.family == "" then s.cf else s.cf[token := Timed(record.family, s.now + cfg.refreshTtl)]
    requires t.fam == MovedLineage(s.fam, record.family, token, drawn, s.now + cfg.refreshTtl)
    requires t.sess == MovedIndex(s.sess, record.subject, token, drawn, cfg.graceTtl > 0, s.now + cfg.refreshTtl)
    ensures t == RotateLive(s, cfg, token, drawn, record)
  {
  }

  /** A session that was not taken away yet is still indexed. */
  lemma StillIndexed(sess: map<Subject, Timed<set<Member>>>, owner: Subject, gone: set<Hash>, hash: Hash)
    requires Live(hash) in Members(sess, owner) && hash !in gone
    ensures Live(hash) in Members(Unindexed(sess, Some(owner), gone), owner)
  {
  }

  lemma UnindexedMembers(sess: map<Subject, Timed<set<Member>>>, owner: Subject, gone: set<Hash>)
    ensures Members(Unindexed(sess, Some(owner), gone), owner) == Members(sess, owner) - set h | h in gone :: Live(h)
  {
  }

  ghost function LiveKept(rt: map<Hash, Timed<Record>>, gone: set<Member>): map<Hash, Timed<Record>> {
    map h | h in rt && Live(h) !in gone :: rt[h]
  }

  ghost function GraceKept(rp: map<Hash, Timed<Pointer>>, gone: set<Member>): map<Hash, Timed<Pointer>> {
    map h | h in rp && Grace(h) !in gone :: rp[h]
  }

  lemma KeptOne(rt: map<Hash, Timed<Record>>, rp: map<Hash, Timed<Pointer>>, gone: set<Member>, member: Member)
    ensures LiveKept(rt, gone + {member}) ==
            if member.Live? then LiveKept(rt, gone) - {member.hash} else LiveKept(rt, gone)
    ensures GraceKept(rp, gone + {member}) ==
            if member.Grace? then GraceKept(rp, gone) - {member.hash} else GraceKept(rp, gone)
  {
  }

  /** Redis drops a set with its last member. */
  ghost predicate NoEmpty<K, V>(sets: map<K, Timed<set<V>>>) {
    forall k | k in sets :: sets[k].value != {}
  }

  /** One identity plane's keyspaces. */
  class Plane {
    var now: nat
    var rt: map<Hash, Timed<Record>>
    var rp: map<Hash, Timed<Pointer>>
    var cf: map<Hash, Timed<Family>>
    var fam: map<Family, Timed<set<Hash>>>
    var sess: map<Subject, Timed<set<Member>>>
    var sd: map<Hash, Timed<Record>>
    var ep: map<Subject, Timed<nat>>

    ghost predicate Valid()
      reads this
    {
      NoEmpty(fam) && NoEmpty(sess)
    }

    function Image(): Store
      reads this
    {
      Store(now, rt, rp, cf, fam, sess, sd, ep)
    }

    constructor ()
      ensures Valid() && Image() == Store(0, map[], map[], map[], map[], map[], map[], map[])
    {
      now, rt, rp, cf, fam, sess, sd, ep := 0, map[], map[], map[], map[], map[], map[], map[];
    }

    /** `create_session_inner`: one MULTI/EXEC transaction. */
    method CreateSession(hash: Hash, record: Record, ttl: nat)
      requires Valid()
      modifies this
      ensures Valid() && Image() == Create(old(Image()), hash, record, ttl)
    {
      rt := rt[hash := Timed(record, now + ttl)];
      sess := AddAll(sess, record.subject, {Live(hash)}, now + ttl);
      sd := sd[hash := Timed(record, now + ttl)];
      if record.family != "" {
        fam := AddAll(fam, record.family, {hash}, now + ttl);
      }
    }

    /** The family bookkeeping of a live rotation. */
    method MoveLineage(cfg: Config, token: Hash, drawn: Hash, family: Family)
      requires Valid()
      modifies this`cf, this`fam
      ensures Valid()
      ensures cf == if family == "" then old(cf) else old(cf)[token := Timed(family, now + cfg.refreshTtl)]
      ensures fam == MovedLineage(old(fam), family, token, drawn, now + cfg.refreshTtl)
    {
      if family != "" {
        cf := cf[token := Timed(family, now + cfg.refreshTtl)];
        RemoveTwice(fam, family, {token}, {});
        fam := RemoveAll(fam, family, {token});
        fam := AddAll(fam, family, {drawn}, now + cfg.refreshTtl);
      }
    }

    /** The session-index bookkeeping of a live rotation. */
    method MoveIndexed(cfg: Config, token: Hash, drawn: Hash, account: Subject)
      requires Valid()
      modifies this`sess
      ensures Valid()
      ensures sess == MovedIndex(old(sess), account, token, drawn, cfg.graceTtl > 0, now + cfg.refreshTtl)
    {
      RemoveTwice(sess, account, {Live(token)}, {});
      sess := RemoveAll(sess, account, {Live(token)});
      ghost var kept := Members(sess, account);
      sess := AddAll(sess, account, {Live(drawn)}, now + cfg.refreshTtl);
      if cfg.graceTtl > 0 {
        assert kept + {Live(drawn)} + {Grace(token)} == kept + ({Live(drawn)} + {Grace(token)});
        sess := AddAll(sess, account, {Grace(token)}, now + cfg.refreshTtl);
      } else {
        assert {Live(drawn)} + {} == {Live(drawn)};
      }
    }

    /** Both, in the script's order. */
    method MoveIndexes(cfg: Config, token: Hash, drawn: Hash, record: Record)
      requires Valid()
      modifies this`cf, this`fam, this`sess
      ensures Valid()
      ensures cf == if record.family == "" then old(cf) else old(cf)[token := Timed(record.family, now + cfg.refreshTtl)]
      ensures fam == MovedLineage(old(fam), record.family, token, drawn, now + cfg.refreshTtl)
      ensures sess == MovedIndex(old(sess), record.subject, token, drawn, cfg.graceTtl > 0, now + cfg.refreshTtl)
    {
      MoveLineage(cfg, token, drawn, record.family);
      MoveIndexed(cfg, token, drawn, record.subject);
    }

    /** The first writes of a live rotation. */
    method StoreSuccessor(cfg: Config, token: Hash, drawn: Hash, record: Record)
      modifies this`rt, this`rp
      ensures rt == old(rt)[drawn := Timed(record, now + cfg.refreshTtl)]
      ensures rp == if cfg.graceTtl > 0 then old(rp)[token := Timed(Pointer(drawn, record), now + cfg.graceTtl)] else old(rp)
    {
      rt := rt[drawn := Timed(record, now + cfg.refreshTtl)];
      if cfg.graceTtl > 0 {
        rp := rp[token := Timed(Pointer(drawn, record), now + cfg.graceTtl)];
      }
    }

    /** The live arm of `refresh_rotate.lua`: the successor, the pointer and the consumed marker are
        written before the old key is deleted. */
    method RotateFound(cfg: Config, token: Hash, drawn: Hash, record: Record)
      requires Valid()
      modifies this
      ensures Valid() && Image() == RotateLive(old(Image()), cfg, token, drawn, record)
    {
      ghost var before := Image();
      StoreSuccessor(cfg, token, drawn, record);
      MoveIndexes(cfg, token, drawn, record);
      rt := rt - {token};
      RotatedIs(before, Image(), cfg, token, drawn, record);
    }

    /** `refresh_rotate.lua`. */
    method RefreshRotate(cfg: Config, token: Hash, drawn: Hash, record: Record) returns (reply: Reply)
      requires Valid()
      modifies this
      ensures Valid() && (Image(), reply) == Rotate(old(Image()), cfg, token, drawn, record)
    {
      if token in rt {
        reply := Rotated(rt[token].value);
        RotateFound(cfg, token, drawn, record);
        return;
      }
      if token in rp {
        var pointer := rp[token].value;
        rp := rp - {token};
        if pointer.successor in rt {
          return GraceHit(pointer.record);
        }
      }
      if token in cf {
        return Reused(cf[token].value);
      }
      return Invalid;
    }

    /** `recover_grace.lua`. */
    method RecoverGrace(hash: Hash, record: Record, ttl: nat) returns (written: bool)
      requires Valid()
      modifies this
      ensures Valid() && (Image(), written) == Recover(old(Image()), hash, record, ttl)
    {
      if record.subject !in sess {
        return false;
      }
      if record.family != "" && record.family !in fam {
        return false;
      }
      CreateSession(hash, record, ttl);
      return true;
    }

    /** The body of the loop of `revoke_family.lua`. */
    method DropMember(owner: Option<Subject>, hash: Hash)
      modifies this`rt, this`sd, this`sess
      ensures rt == old(rt) - {hash} && sd == old(sd) - {hash}
      ensures sess == if owner.None? then old(sess) else RemoveAll(old(sess), owner.value, {Live(hash)})
    {
      rt := rt - {hash};
      sd := sd - {hash};
      if owner.Some? {
        sess := RemoveAll(sess, owner.value, {Live(hash)});
      }
    }

    /** That loop. */
    method DropMembers(owner: Option<Subject>, members: set<Hash>)
      requires Valid()
      modifies this`rt, this`sd, this`sess
      ensures Valid() && rt == old(rt) - members && sd == old(sd) - members
      ensures sess == Unindexed(old(sess), owner, members)
    {
      var left := members;
      ghost var rt0, sd0, sess0 := rt, sd, sess;
      UnindexNone(sess, owner, members - left);
      while left != {}
        invariant left <= members && Valid()
        invariant rt == rt0 - (members - left) && sd == sd0 - (members - left)
        invariant sess == Unindexed(sess0, owner, members - left)
        decreases |left|
      {
        var hash :| hash in left;
        UnindexOne(sess0, owner, members - left, hash);
        UnindexOne(sess0, owner, members - left + {hash}, hash);
        MinusOne(rt0, members - left, hash);
        MinusOne(sd0, members - left, hash);
        LeftOne(members, left, hash);
        DropMember(owner, hash);
        left := left - {hash};
      }
      assert members - left == members;
    }

    /** `revoke_family.lua`: one member at a time. */
    method RevokeLineage(family: Family, owner: Option<Subject>) returns (removed: nat)
      requires Valid()
      modifies this
      ensures Valid() && Image() == RevokeFamily(old(Image()), family, owner)
      ensures removed == |Members(old(fam), family)|
    {
      var members := Members(fam, family);
      DropMembers(owner, members);
      fam := fam - {family};
      removed := |members|;
    }

    /** `DEL` of the key a member names, and of a live member's detail record. */
    method DeleteNamed(member: Member)
      modifies this`rt, this`rp, this`sd
      ensures rt == if member.Live? then old(rt) - {member.hash} else old(rt)
      ensures sd == if member.Live? then old(sd) - {member.hash} else old(sd)
      ensures rp == if member.Grace? then old(rp) - {member.hash} else old(rp)
    {
      match member {
        case Live(h) =>
          rt := rt - {h};
          sd := sd - {h};
        case Grace(h) => rp := rp - {h};
      }
    }

    /** `invalidate_user_sessions.lua`: the key each member names, then the index. */
    method InvalidateUserSessions(account: Subject) returns (removed: nat)
      requires Valid()
      modifies this
      ensures Valid() && Image() == RevokeAll(old(Image()), account)
      ensures removed == |Members(old(sess), account)|
    {
      var members := Members(sess, account);
      var left := members;
      ghost var rt0, rp0, sd0 := rt, rp, sd;
      while left != {}
        invariant left <= members
        invariant rt == LiveKept(rt0, members - left) && sd == LiveKept(sd0, members - left)
        invariant rp == GraceKept(rp0, members - left)
        invariant unchanged(`now, `cf, `fam, `sess, `ep)
        decreases |left|
      {
        var member :| member in left;
        KeptOne(rt0, rp0, members - left, member);
        KeptOne(sd0, rp0, members - left, member);
        LeftOne(members, left, member);
        DeleteNamed(member);
        left := left - {member};
      }
      assert members - left == members;
      sess := sess - {account};
      removed := |members|;
    }

    /** `session_revoke.lua`. */
    method RevokeOwned(account: Subject, hash: Hash) returns (owned: bool)
      requires Valid()
      modifies this
      ensures Valid() && (Image(), owned) == RevokeSession(old(Image()), account, hash)
    {
      if Live(hash) !in Members(sess, account) {
        return false;
      }
      sess := RemoveAll(sess, account, {Live(hash)});
      rt := rt - {hash};
      sd := sd - {hash};
      return true;
    }

    /** `move_session_detail`: one transaction, after the rotation script. */
    method MoveSessionDetail(cfg: Config, token: Hash, drawn: Hash, record: Record)
      modifies this`sd
      ensures Image() == MoveDetail(old(Image()), cfg, token, drawn, record)
    {
      sd := sd - {token};
      sd := sd[drawn := Timed(record, now + cfg.refreshTtl)];
    }

    /** `bump_epoch`: `INCR`, which creates the counter at one, then `EXPIRE`. */
    method AdvanceEpoch(account: Subject) returns (epoch: nat)
      modifies this`ep
      ensures Image() == BumpEpoch(old(Image()), account) && epoch == Epoch(Image(), account)
    {
      epoch := if account in ep then ep[account].value + 1 else 1;
      ep := ep[account := Timed(epoch, now + EPOCH_RETENTION)];
    }

    /** The loop of `revoke_all_except_current`, undisturbed. */
    method RevokeListed(account: Subject, listed: set<Hash>)
      requires Valid() && forall h | h in listed :: Live(h) in Members(sess, account)
      modifies this
      ensures Valid() && rt == old(rt) - listed
      ensures unchanged(`now, `rp, `cf, `fam, `ep)
      ensures sess == Unindexed(old(sess), Some(account), listed)
    {
      var left := listed;
      ghost var rt0, sess0 := rt, sess;
      UnindexNone(sess, Some(account), listed - left);
      while left != {}
        invariant left <= listed && Valid()
        invariant rt == rt0 - (listed - left) && sess == Unindexed(sess0, Some(account), listed - left)
        invariant unchanged(`now, `rp, `cf, `fam, `ep)
        decreases |left|
      {
        var hash :| hash in left;
        UnindexOne(sess0, Some(account), listed - left, hash);
        StillIndexed(sess0, account, listed - left, hash);
        MinusOne(rt0, listed - left, hash);
        LeftOne(listed, left, hash);
        var _ := RevokeOwned(account, hash);
        left := left - {hash};
      }
      assert listed - left == listed;
    }

    /** `sweep_grace_pointers`, undisturbed. */
    method SweepPointers(account: Subject)
      requires Valid()
      modifies this`rp, this`sess
      ensures Valid() && rp == GraceKept(old(rp), Members(old(sess), account))
      ensures sess == RemoveAll(old(sess), account, set m | m in Members(old(sess), account) && m.Grace?)
    {
      var pointers := set m | m in Members(sess, account) && m.Grace?;
      var left := pointers;
      ghost var rp0, sess0 := rp, sess;
      assert pointers - left == {} && GraceKept(rp0, {}) == rp0;
      RemoveNone(sess, account);
      while left != {}
        invariant left <= pointers && Valid()
        invariant rp == GraceKept(rp0, pointers - left) && sess == RemoveAll(sess0, account, pointers - left)
        decreases |left|
      {
        var member :| member in left;
        KeptOne(map[], rp0, pointers - left, member);
        RemoveTwice(sess0, account, pointers - left, {member});
        rp := rp - {member.hash};
        Unindex(account, member);
        LeftOne(pointers, left, member);
        left := left - {member};
      }
      assert pointers - left == pointers;
      assert GraceKept(rp0, pointers) == GraceKept(rp0, Members(sess0, account));
    }

    /** `revoke_all_except_current` once the session to keep is settled, undisturbed: of the sessions and
        pointers the index names, only the kept session is left, and the epoch is advanced. */
    method RevokeOthers(account: Subject, kept: Hash)
      requires Valid()
      modifies this
      ensures Valid() && rt == old(rt) - (Hashes(old(Image()), account, true) - {kept})
      ensures rp == GraceKept(old(rp), Members(old(sess), account))
      ensures Members(sess, account) == Members(old(sess), account) * {Live(kept)}
      ensures ep == BumpEpoch(old(Image()), account).ep && unchanged(`now, `cf, `fam)
    {
      ghost var members := Members(sess, account);
      var listed := (set m | m in Members(sess, account) && m.Live? :: m.hash) - {kept};
      assert listed == Hashes(Image(), account, true) - {kept};
      RevokeListed(account, listed);
      UnindexedMembers(old(sess), account, listed);
      OnlyKeptLeft(members, listed, kept);
      RemovedMembers(sess, account, set m | m in Members(sess, account) && m.Grace?);
      SweepPointers(account);
      var _ := AdvanceEpoch(account);
      assert GraceKept(old(rp), Members(old(sess), account)) == rp;
    }

    /** `SREM` of one member. */
    method Unindex(account: Subject, member: Member)
      requires Valid()
      modifies this`sess
      ensures Valid() && sess == RemoveAll(old(sess), account, {member})
    {
      RemoveTwice(sess, account, {member}, {});
      sess := RemoveAll(sess, account, {member});
    }

    /** One round of `session_prune_dead.lua`. */
    method PruneOne(account: Subject, member: Member) returns (gone: set<Member>)
      requires Valid()
      modifies this`sess
      ensures gone == Missing(rt, rp, member)
      ensures Valid() && sess == RemoveAll(old(sess), account, gone)
    {
      gone := Missing(rt, rp, member);
      RemoveTwice(sess, account, gone, {});
      sess := RemoveAll(sess, account, gone);
    }

    /** `session_prune_dead.lua`. */
    method PruneDead(account: Subject, candidates: set<Member>) returns (removed: set<Member>)
      requires Valid()
      modifies this`sess
      ensures Valid() && Image() == Prune(old(Image()), account, candidates)
      ensures removed == Dead(rt, rp, candidates)
    {
      removed := PruneAll(account, candidates);
    }

    /** The loop of that script. */
    method PruneAll(account: Subject, candidates: set<Member>) returns (removed: set<Member>)
      requires Valid()
      modifies this`sess
      ensures Valid() && removed == Dead(rt, rp, candidates) && sess == RemoveAll(old(sess), account, removed)
    {
      var left := candidates;
      removed := {};
      ghost var sess0 := sess;
      DeadNone(rt, rp, candidates - left);
      RemoveNone(sess, account);
      while left != {}
        invariant left <= candidates && removed == Dead(rt, rp, candidates - left)
        invariant Valid() && sess == RemoveAll(sess0, account, removed)
        decreases |left|
      {
        var member :| member in left;
        var gone := PruneOne(account, member);
        DeadOne(rt, rp, candidates - left, member);
        LeftOne(candidates, left, member);
        RemoveTwice(sess0, account, removed, gone);
        removed := removed + gone;
        left := left - {member};
      }
      assert candidates - left == candidates;
    }
  }
}
