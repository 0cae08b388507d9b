/** Rotating a repository password and revoking the old key, with a failure or a stop of the process
    possible at every call to the vault, the store and restic. */
module Rotation {
  import Text
  import opened Wrappers

  /** How one external call ends. A process that dies may do so before or after the call took effect, and
      then runs none of its deferred work. */
  datatype Fate = Works | Fails | Dies(effect: bool)

  datatype Outcome = Done | Refused | Died

  datatype Revocation = Revocation(keyId: nat, secretId: nat)

  datatype RotateFates = RotateFates(
    material: Fate, query: Fate, list: Fate, identified: bool, put: Fate, addKey: Fate, verify: Fate, commit: Fate, delete: Fate)

  datatype RevokeFates = RevokeFates(query: Fate, material: Fate, list: Fate, remove: Fate, complete: Fate)

  datatype Request = Rotate(newPassword: string, rotating: RotateFates) | Revoke(revoking: RevokeFates)

  /** What the calls of a rotation answer up to the one that decides how it ends, in the order they are made. */
  ghost predicate RotationDies(f: RotateFates, alreadyPending: bool) {
    || f.material.Dies?
    || (f.material.Works? && (f.query.Dies? || (f.query.Works? && !alreadyPending
        && (f.list.Dies? || (f.list.Works? && f.identified
        && (f.put.Dies? || (f.put.Works? && (AddedKeyDies(f) || (CleansUp(f) && f.delete.Dies?)))))))))
  }

  /** The process stops while the new key is added, verified or committed. */
  ghost predicate AddedKeyDies(f: RotateFates) {
    f.addKey.Dies? || (f.addKey.Works? && (f.verify.Dies? || (f.verify.Works? && f.commit.Dies?)))
  }

  /** One of those three fails, and the new secret is deleted again. */
  ghost predicate CleansUp(f: RotateFates) {
    f.addKey.Fails? || (f.addKey.Works? && (f.verify.Fails? || (f.verify.Works? && f.commit.Fails?)))
  }

  /** The old key is known, and nothing stands in the way of replacing its password. */
  ghost predicate MayRotate(newPassword: string, f: RotateFates, alreadyPending: bool) {
    && Text.Size(newPassword) >= 12 && f.material.Works? && f.query.Works? && !alreadyPending && f.list.Works? && f.identified
  }

  /** The key to be revoked was looked for in the list of keys. */
  ghost predicate MayRevoke(f: RevokeFates) {
    f.query.Works? && f.material.Works? && f.list.Works?
  }

  ghost predicate DiesRevoking(f: RevokeFates, there: bool, inUse: bool) {
    || f.query.Dies?
    || (f.query.Works? && (f.material.Dies? || (f.material.Works? && (f.list.Dies?
        || (f.list.Works? && ((there && f.remove.Dies?) || ((there ==> !inUse && f.remove.Works?) && f.complete.Dies?)))))))
  }

  predicate Effective(f: Fate) {
    f.Works? || (f.Dies? && f.effect)
  }

  /** A try that ends a revocation by itself: restic uses another key, and every call works. */
  predicate GoesThrough(keys: map<nat, string>, password: string, oldKey: nat, used: nat, f: RevokeFates) {
    && used in keys && keys[used] == password && used != oldKey
    && f.query.Works? && f.material.Works? && f.list.Works? && f.remove.Works? && f.complete.Works?
  }

  class Repository {
    var keys: map<nat, string>     // restic key id to the password that opens with it
    var secrets: map<nat, string>  // the vault
    var current: nat               // the secret id stored for the repository
    var pending: Option<Revocation>
    var drawn: nat                 // ids below this one have been drawn; ids are never drawn twice

    /** The key `k` opens the repository with the stored secret and is not about to be revoked. */
    predicate Opens(k: nat)
      reads this
    {
      k in keys && current in secrets && keys[k] == secrets[current] && !(pending.Some? && pending.value.keyId == k)
    }

    /** The stored secret exists and opens the repository through a key that no revocation will remove. */
    predicate Usable()
      reads this
    {
      current in secrets && exists k :: k in keys && Opens(k)
    }

    predicate Valid()
      reads this
    {
      && Usable()
      && (pending.Some? ==> pending.value.secretId in secrets && pending.value.secretId != current && pending.value.keyId < drawn)
      && (forall k :: k in keys ==> k < drawn)
      && (forall id :: id in secrets ==> id < drawn)
    }

    constructor (password: string)
      ensures Valid() && pending.None? && current in secrets && secrets[current] == password
    {
      keys, secrets, current, pending, drawn := map[1 := password], map[0 := password], 0, None, 2;
      new;
      assert Opens(1);
    }

    /** `used` is the key restic reports as current: one that the stored password opens. */
    method RotatePassword(newPassword: string, used: nat, f: RotateFates) returns (o: Outcome)
      requires Valid() && used in keys && keys[used] == secrets[current]
      modifies this
      ensures Valid()
      // no key is ever removed, and at most one is added
      ensures forall k :: k in old(keys) ==> k in keys && keys[k] == old(keys[k])
      ensures keys.Keys <= old(keys.Keys) + {old(drawn) + 1}
      // a second rotation waits for the first revocation
      ensures old(pending).Some? ==> o != Done && keys == old(keys) && secrets == old(secrets) && pending == old(pending) && current == old(current)
      // exactly when it is done, and exactly when the process stops
      ensures o == Done <==>
                && Text.Size(newPassword) >= 12 && f.material.Works? && f.query.Works? && old(pending).None? && f.list.Works?
                && f.identified && f.put.Works? && f.addKey.Works? && f.verify.Works? && f.commit.Works?
      ensures o == Died <==> Text.Size(newPassword) >= 12 && RotationDies(f, old(pending).Some?)
      // exactly what there is afterwards, whichever call fails or stops the process
      ensures keys == if MayRotate(newPassword, f, old(pending).Some?) && f.put.Works? && Effective(f.addKey)
                      then old(keys)[old(drawn) + 1 := newPassword] else old(keys)
      ensures secrets == if MayRotate(newPassword, f, old(pending).Some?) && Effective(f.put)
                            && !(f.put.Works? && CleansUp(f) && Effective(f.delete))
                         then old(secrets)[old(drawn) := newPassword] else old(secrets)
      ensures (current, pending) == if MayRotate(newPassword, f, old(pending).Some?) && f.put.Works? && f.addKey.Works? && f.verify.Works? && Effective(f.commit)
                                    then (old(drawn), Some(Revocation(used, old(current)))) else (old(current), old(pending))
      // done: the new password is stored, its key differs from the one awaiting revocation, and the old secret is kept for it
      ensures o == Done ==>
                && pending == Some(Revocation(used, old(current)))
                && current in secrets && secrets[current] == newPassword && secrets == old(secrets)[current := newPassword] && current !in old(secrets)
                && keys == old(keys)[old(drawn) + 1 := newPassword]
      // refused: the stored secret and its revocation state are as before, and the vault is too unless clean-up failed
      ensures o == Refused ==>
                && current == old(current) && pending == old(pending)
                && (secrets == old(secrets) || (!Effective(f.delete) && secrets == old(secrets)[old(drawn) := newPassword]))
      // stopped: one of those two, as far as the stored secret goes
      ensures o == Died ==>
                || (current == old(current) && pending == old(pending) && secrets[current] == old(secrets[current]))
                || (current == old(drawn) && secrets[current] == newPassword && pending == Some(Revocation(used, old(current))))
    {
      if Text.Size(newPassword) < 12 {
        return Refused;
      }
      if !f.material.Works? {
        return if f.material.Dies? then Died else Refused;
      }
      if !f.query.Works? {
        return if f.query.Dies? then Died else Refused;
      }
      if pending.Some? {
        return Refused;
      }
      if !f.list.Works? {
        return if f.list.Dies? then Died else Refused;
      }
      if !f.identified {
        return Refused;
      }
      o := ReplacePassword(newPassword, used, f);
    }

    /** From the new secret on: store it, add its key, verify it and commit, or delete it again. */
    method ReplacePassword(newPassword: string, used: nat, f: RotateFates) returns (o: Outcome)
      requires Valid() && used in keys && keys[used] == secrets[current] && pending.None?
      modifies this
      ensures Valid()
      ensures o == Done <==> f.put.Works? && f.addKey.Works? && f.verify.Works? && f.commit.Works?
      ensures o == Died <==> f.put.Dies? || (f.put.Works? && (AddedKeyDies(f) || (CleansUp(f) && f.delete.Dies?)))
      ensures keys == if f.put.Works? && Effective(f.addKey) then old(keys)[old(drawn) + 1 := newPassword] else old(keys)
      ensures secrets == if Effective(f.put) && !(f.put.Works? && CleansUp(f) && Effective(f.delete))
                         then old(secrets)[old(drawn) := newPassword] else old(secrets)
      ensures (current, pending) == if f.put.Works? && f.addKey.Works? && f.verify.Works? && Effective(f.commit)
                                    then (old(drawn), Some(Revocation(used, old(current)))) else (old(current), old(pending))
    {
      ghost var k0 :| k0 in keys && Opens(k0);
      var oldKeyId, oldSecretId := used, current;
      var newSecretId, newKeyId := drawn, drawn + 1;
      drawn := drawn + 2;
      assert Opens(k0);
      if Effective(f.put) {
        secrets := secrets[newSecretId := newPassword];
      }
      assert Opens(k0);
      if !f.put.Works? {
        return if f.put.Dies? then Died else Refused;
      }
      if Effective(f.addKey) {
        keys := keys[newKeyId := newPassword];
      }
      assert Opens(k0);
      if f.addKey.Dies? || (f.addKey.Works? && f.verify.Dies?) {
        return Died;
      }
      if f.addKey.Works? && f.verify.Works? {
        if Effective(f.commit) {
          pending, current := Some(Revocation(oldKeyId, oldSecretId)), newSecretId;
          assert Opens(newKeyId);
        }
        if !f.commit.Fails? {
          return if f.commit.Dies? then Died else Done;
        }
      }
      if Effective(f.delete) {
        secrets := secrets - {newSecretId};
      }
      assert Opens(k0);
      assert Effective(f.delete) ==> secrets == old(secrets);
      return if f.delete.Dies? then Died else Refused;
    }

    /** `used` is the key restic uses; restic refuses to remove the key it is using. */
    method RevokeOldPassword(used: nat, f: RevokeFates) returns (o: Outcome)
      requires Valid() && used in keys && keys[used] == secrets[current]
      modifies this
      ensures Valid() && current == old(current) && current in secrets && secrets[current] == old(secrets[current])
      ensures old(pending).None? ==> keys == old(keys) && secrets == old(secrets) && pending.None? && (o == Done <==> f.query.Works?)
      // only the old key can go, and the revocation is over only once it has gone
      ensures old(pending).Some? ==>
                var p := old(pending).value;
                && (keys == old(keys) || keys == old(keys) - {p.keyId})
                && (pending == old(pending) ==> secrets == old(secrets))
                && (pending != old(pending) ==> pending.None? && keys == old(keys) - {p.keyId} && secrets == old(secrets) - {p.secretId})
                && (o == Done ==> pending.None?)
                && (o == Refused ==> pending == old(pending))
                // exactly when the process stops, and exactly what is gone
                && (o == Died <==> DiesRevoking(f, p.keyId in old(keys), used == p.keyId))
                && keys == (if MayRevoke(f) && used != p.keyId && Effective(f.remove) then old(keys) - {p.keyId} else old(keys))
                && (pending.None? <==> MayRevoke(f) && (p.keyId in old(keys) ==> used != p.keyId && f.remove.Works?) && Effective(f.complete))
                // it goes through exactly when every call does and restic is not using the old key itself
                && (o == Done <==> f.query.Works? && f.material.Works? && f.list.Works? && f.complete.Works?
                                   && (p.keyId in old(keys) ==> used != p.keyId && f.remove.Works?))
    {
      ghost var k0 :| k0 in keys && Opens(k0);
      if !f.query.Works? {
        return if f.query.Dies? then Died else Refused;
      }
      if pending.None? {
        return Done;
      }
      if !f.material.Works? {
        return if f.material.Dies? then Died else Refused;
      }
      if !f.list.Works? {
        return if f.list.Dies? then Died else Refused;
      }
      var p := pending.value;
      if p.keyId in keys {
        if used == p.keyId {
          return if f.remove.Dies? then Died else Refused;
        }
        if Effective(f.remove) {
          keys := keys - {p.keyId};
        }
        assert Opens(k0);
        if !f.remove.Works? {
          return if f.remove.Dies? then Died else Refused;
        }
      }
      assert keys == old(keys) - {p.keyId};
      if Effective(f.complete) {
        pending, secrets := None, secrets - {p.secretId};
      }
      assert Opens(k0);
      return match f.complete case Works => Done case Fails => Refused case Dies(_) => Died;
    }

    /** Revocation tried again and again, each try stopped or failing anywhere: until it is done the old
        key may or may not be gone, and once it is done exactly the old key and the old secret are. */
    method RevokeRepeatedly(tries: seq<(nat, RevokeFates)>) returns (done: bool)
      requires Valid() && pending.Some?
      modifies this
      ensures Valid() && current == old(current) && current in secrets && secrets[current] == old(secrets[current])
      ensures pending.None? ==> keys == old(keys) - {old(pending).value.keyId} && secrets == old(secrets) - {old(pending).value.secretId}
      ensures pending.Some? ==> pending == old(pending) && secrets == old(secrets) && (keys == old(keys) || keys == old(keys) - {old(pending).value.keyId})
      ensures done ==> pending.None?
      ensures (exists t :: t in tries && GoesThrough(old(keys), old(secrets)[old(current)], old(pending).value.keyId, t.0, t.1)) ==> done
    {
      done := false;
      ghost var p := pending.value;
      var i := 0;
      while i < |tries| && !done
        invariant Valid() && current == old(current) && current in secrets && secrets[current] == old(secrets[current])
        invariant pending.None? ==> keys == old(keys) - {p.keyId} && secrets == old(secrets) - {p.secretId}
        invariant pending.Some? ==> pending == old(pending) && secrets == old(secrets) && (keys == old(keys) || keys == old(keys) - {p.keyId})
        invariant i <= |tries| && (done ==> pending.None?)
        invariant !done ==> forall t :: t in tries[..i] ==> !GoesThrough(old(keys), old(secrets)[old(current)], p.keyId, t.0, t.1)
      {
        var (used, f) := tries[i];
        assert tries[..i + 1] == tries[..i] + [tries[i]];
        if used in keys && keys[used] == secrets[current] {
          var o := RevokeOldPassword(used, f);
          done := o == Done;
        }
        i := i + 1;
      }
      assert !done ==> tries[..i] == tries;
    }

    /** Any sequence of rotations and revocations, the process restarted after every stop: at every moment
        the stored secret opens the repository, and at most one revocation is pending by its type. */
    method History(requests: seq<(nat, Request)>)
      requires Valid()
      modifies this
      ensures Valid() && Usable()
    {
      for i := 0 to |requests|
        invariant Valid()
      {
        var (used, request) := requests[i];
        if used in keys && keys[used] == secrets[current] {
          match request {
            case Rotate(newPassword, f) => var o := RotatePassword(newPassword, used, f);
            case Revoke(f) => var o := RevokeOldPassword(used, f);
          }
        }
      }
    }
  }
}
