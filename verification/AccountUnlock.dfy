/**
 The unlocking of accounts: which accounts may be used without their password, for
 how long, and how often.
 */
module AccountUnlock {
  import opened Wrappers

  type Address = nat
  type Password = string
  type Secret = nat
  type Time = nat

  datatype Unlock = OneTime | Perm | Timed(end: Time)

  datatype AccountData = AccountData(unlock: Unlock, password: Password)

  /** Both maps compare accounts by address alone. */
  datatype State = State(unlocked: map<Address, AccountData>, secrets: map<Address, Secret>, keepSecret: bool)

  // ---------------------------------------------------------------- the operations

  predicate PermanentlyUnlocked(s: State, a: Address) { a in s.unlocked && s.unlocked[a].unlock == Perm }

  /** What the store says about an account and a password: whether it knows the one and accepts the other. */
  datatype Verdict = Verdict(known: bool, accepted: bool)

  /** `unlock_account`, with whether it reports success. */
  function UnlockAccount(s: State, a: Address, password: Password, unlock: Unlock, v: Verdict, secret: Secret)
    : (State, bool)
  {
    if !v.known then (s, false)
    else if PermanentlyUnlocked(s, a) then (s, true)
    else if !v.accepted then (s, false)
    else
      (s.(unlocked := s.unlocked[a := AccountData(unlock, password)],
          secrets := if s.keepSecret && unlock == Perm then s.secrets[a := secret] else s.secrets), true)
  }

  /** `lock_account`. */
  function LockAccount(s: State, a: Address, known: bool): (State, bool) {
    if !known then (s, false)
    else if a !in s.unlocked then (s, true)
    else
      (s.(unlocked := s.unlocked - {a},
          secrets := if s.unlocked[a].unlock == Perm then s.secrets - {a} else s.secrets), true)
  }

  /** `password_with_unlocked`. */
  function TakePassword(s: State, a: Address, now: Time): (State, Option<Password>) {
    if a !in s.unlocked then (s, None)
    else
      match s.unlocked[a].unlock
      case OneTime => (s.(unlocked := s.unlocked - {a}), Some(s.unlocked[a].password))
      case Timed(end) =>
        if now > end then (s.(unlocked := s.unlocked - {a}), None) else (s, Some(s.unlocked[a].password))
      case Perm => (s, Some(s.unlocked[a].password))
  }

  /** An unlock lasts until its end, if it has one. */
  predicate Lasts(u: Unlock, now: Time) { u.Timed? ==> now <= u.end }

  /** Signing may use the raw secret; the other uses are sign_derived, decrypt, agree and derive_account. */
  datatype Kind = Signing | Other

  datatype Access = Refused | BySecret(secret: Secret) | ByPassword(password: Password)

  /** With what an account is used. */
  function Use(s: State, a: Address, kind: Kind, given: Option<Password>, known: bool, now: Time): (State, Access) {
    if !known then (s, Refused)
    else if kind == Signing && a in s.secrets then (s, BySecret(s.secrets[a]))
    else if given.Some? then (s, ByPassword(given.value))
    else
      var (t, p) := TakePassword(s, a, now);
      (t, if p.Some? then ByPassword(p.value) else Refused)
  }

  // ---------------------------------------------------------------- every run

  datatype Event =
    | DoUnlock(a: Address, password: Password, unlock: Unlock, v: Verdict, secret: Secret)
    | DoLock(a: Address, known: bool)
    | DoUse(a: Address, kind: Kind, given: Option<Password>, known: bool, now: Time)

  function Step(s: State, e: Event): State {
    match e
    case DoUnlock(a, password, unlock, v, secret) => UnlockAccount(s, a, password, unlock, v, secret).0
    case DoLock(a, known) => LockAccount(s, a, known).0
    case DoUse(a, kind, given, known, now) => Use(s, a, kind, given, known, now).0
  }

  function Run(s: State, es: seq<Event>): State
    decreases |es|
  {
    if es == [] then s else Run(Step(s, es[0]), es[1..])
  }

  /** A use of the account that got through without its password. */
  predicate Granted(s: State, e: Event, a: Address) {
    e.DoUse? && e.a == a && e.given.None? && Use(s, e.a, e.kind, e.given, e.known, e.now).1 != Refused
  }

  function Grants(s: State, es: seq<Event>, a: Address): nat
    decreases |es|
  {
    if es == [] then 0
    else (if Granted(s, es[0], a) then 1 else 0) + Grants(Step(s, es[0]), es[1..], a)
  }

  /** Raw secrets are kept only for permanently unlocked accounts. */
  ghost predicate Inv(s: State) {
    forall a :: a in s.secrets ==> PermanentlyUnlocked(s, a)
  }

  lemma StepKeeps(s: State, e: Event)
    requires Inv(s)
    ensures Inv(Step(s, e))
  {
  }

  lemma {:induction false} RunKeeps(s: State, es: seq<Event>)
    requires Inv(s)
    ensures Inv(Run(s, es))
    decreases |es|
  {
    if es != [] {
      StepKeeps(s, es[0]);
      RunKeeps(Step(s, es[0]), es[1..]);
    }
  }

  /** A use without a password gets through exactly while the unlock lasts, and with the password it was given. */
  lemma GrantedExactly(s: State, a: Address, kind: Kind, now: Time)
    requires Inv(s)
    ensures var (t, access) := Use(s, a, kind, None, true, now);
            && (access != Refused <==>
                  a in s.unlocked && Lasts(s.unlocked[a].unlock, now))
            && (access.ByPassword? ==> access.password == s.unlocked[a].password)
            && (access.BySecret? ==> kind == Signing && s.unlocked[a].unlock == Perm)
            && (a in t.unlocked <==> access != Refused && s.unlocked[a].unlock != OneTime)
  {
  }

  predicate Locks(e: Event, a: Address) { e == DoLock(a, true) }

  /** An attempt to unlock that the store accepts. */
  predicate Unlocks(e: Event, a: Address) { e.DoUnlock? && e.a == a && e.v == Verdict(true, true) }

  /** A permanent unlock, its password and its secret stay as they are until the account is locked. */
  lemma {:induction false} PermanentUntilLocked(s: State, es: seq<Event>, a: Address)
    requires Inv(s) && PermanentlyUnlocked(s, a)
    requires forall i :: 0 <= i < |es| ==> !Locks(es[i], a)
    ensures PermanentlyUnlocked(Run(s, es), a) && Run(s, es).unlocked[a] == s.unlocked[a]
    ensures a in s.secrets ==> a in Run(s, es).secrets && Run(s, es).secrets[a] == s.secrets[a]
    decreases |es|
  {
    if es != [] {
      StepKeeps(s, es[0]);
      assert !Locks(es[0], a);
      PermanentUntilLocked(Step(s, es[0]), es[1..], a);
    }
  }

  function AskedWithout(es: seq<Event>, a: Address): nat {
    if es == [] then 0
    else (if es[0].DoUse? && es[0].a == a && es[0].given.None? && es[0].known then 1 else 0) + AskedWithout(es[1..], a)
  }

  /** And until then every use of a known account gets through. */
  lemma {:induction false} PermanentGrantsAll(s: State, es: seq<Event>, a: Address)
    requires Inv(s) && PermanentlyUnlocked(s, a)
    requires forall i :: 0 <= i < |es| ==> !Locks(es[i], a)
    ensures Grants(s, es, a) == AskedWithout(es, a)
    decreases |es|
  {
    if es != [] {
      StepKeeps(s, es[0]);
      assert !Locks(es[0], a);
      PermanentUntilLocked(s, [es[0]], a);
      assert [es[0]][1..] == [] && Run(s, [es[0]]) == Run(Step(s, es[0]), []);
      PermanentGrantsAll(Step(s, es[0]), es[1..], a);
    }
  }

  /** An accepted unlock takes effect as asked for, unless the account is permanently unlocked already. */
  lemma UnlockTakesEffect(s: State, e: Event, a: Address)
    requires Inv(s) && Unlocks(e, a)
    ensures var t := Step(s, e);
            && a in t.unlocked
            && (PermanentlyUnlocked(s, a) ==> t == s)
            && (!PermanentlyUnlocked(s, a) ==>
                  && t.unlocked == s.unlocked[a := AccountData(e.unlock, e.password)]
                  && (a in t.secrets <==> s.keepSecret && e.unlock == Perm))
  {
  }

  /** A locked account is used without a password only after a new unlock. */
  lemma {:induction false} LockedGrantsNothing(s: State, es: seq<Event>, a: Address)
    requires Inv(s) && a !in s.unlocked
    requires forall i :: 0 <= i < |es| ==> !Unlocks(es[i], a)
    ensures Grants(s, es, a) == 0 && a !in Run(s, es).unlocked
    decreases |es|
  {
    if es != [] {
      StepKeeps(s, es[0]);
      assert !Unlocks(es[0], a);
      LockedGrantsNothing(Step(s, es[0]), es[1..], a);
    }
  }

  /** Locking works, whatever kind of unlock there was. */
  lemma LockEndsAccess(s: State, es: seq<Event>, a: Address)
    requires Inv(s) && forall i :: 0 <= i < |es| ==> !Unlocks(es[i], a)
    ensures var t := Step(s, DoLock(a, true)); Grants(t, es, a) == 0 && a !in t.unlocked && a !in t.secrets
  {
    StepKeeps(s, DoLock(a, true));
    LockedGrantsNothing(Step(s, DoLock(a, true)), es, a);
  }

  /** A one-time unlock is good for at most one use, of whatever kind, and is gone after it. */
  lemma {:induction false} OneTimeGrantsOnce(s: State, es: seq<Event>, a: Address)
    requires Inv(s) && a in s.unlocked && s.unlocked[a].unlock == OneTime
    requires forall i :: 0 <= i < |es| ==> !Unlocks(es[i], a)
    ensures Grants(s, es, a) <= 1
    ensures Grants(s, es, a) == 1 ==> a !in Run(s, es).unlocked
    decreases |es|
  {
    if es != [] {
      StepKeeps(s, es[0]);
      assert !Unlocks(es[0], a);
      var t := Step(s, es[0]);
      if a in t.unlocked {
        assert t.unlocked[a] == s.unlocked[a] && !Granted(s, es[0], a);
        OneTimeGrantsOnce(t, es[1..], a);
      } else {
        LockedGrantsNothing(t, es[1..], a);
      }
    }
  }

  /** A timed unlock grants nothing after its end, although it is only dropped when next looked at. */
  lemma {:induction false} TimedGrantsUntilEnd(s: State, es: seq<Event>, a: Address, end: Time)
    requires Inv(s) && a in s.unlocked && s.unlocked[a].unlock == Timed(end)
    requires forall i :: 0 <= i < |es| ==> !Unlocks(es[i], a)
    requires forall i :: 0 <= i < |es| && es[i].DoUse? ==> es[i].now > end
    ensures Grants(s, es, a) == 0
    decreases |es|
  {
    if es != [] {
      StepKeeps(s, es[0]);
      assert !Unlocks(es[0], a);
      var t := Step(s, es[0]);
      if a in t.unlocked {
        TimedGrantsUntilEnd(t, es[1..], a, end);
      } else {
        LockedGrantsNothing(t, es[1..], a);
      }
    }
  }

  // ---------------------------------------------------------------- the object

  class AccountProvider {
    var unlocked: map<Address, AccountData>
    var unlockedSecrets: map<Address, Secret>
    const keepSecret: bool

    ghost function Value(): State
      reads this
    {
      State(unlocked, unlockedSecrets, keepSecret)
    }

    constructor (unlockKeepSecret: bool)
      ensures Value() == State(map[], map[], unlockKeepSecret) && Inv(Value())
    {
      unlocked, unlockedSecrets, keepSecret := map[], map[], unlockKeepSecret;
    }

    method UnlockOne(a: Address, password: Password, unlock: Unlock, v: Verdict, secret: Secret) returns (ok: bool)
      requires Inv(Value())
      modifies this
      ensures Inv(Value()) && (Value(), ok) == UnlockAccount(old(Value()), a, password, unlock, v, secret)
    {
      StepKeeps(Value(), DoUnlock(a, password, unlock, v, secret));
      if !v.known {
        return false;
      }
      if a in unlocked && unlocked[a].unlock == Perm {
        return true;
      }
      if !v.accepted {
        return false;
      }
      if keepSecret && unlock == Perm {
        unlockedSecrets := unlockedSecrets[a := secret];
      }
      unlocked := unlocked[a := AccountData(unlock, password)];
      return true;
    }

    method LockOne(a: Address, known: bool) returns (ok: bool)
      requires Inv(Value())
      modifies this
      ensures Inv(Value()) && (Value(), ok) == LockAccount(old(Value()), a, known)
    {
      StepKeeps(Value(), DoLock(a, known));
      if !known {
        return false;
      }
      if a in unlocked {
        if unlocked[a].unlock == Perm {
          unlockedSecrets := unlockedSecrets - {a};
        }
        unlocked := unlocked - {a};
      }
      return true;
    }

    /**
     There is a password exactly while the unlock lasts, it is the one of the unlock, and only an
     unlock that is used up or over is forgotten.
     */
    method PasswordOf(a: Address, now: Time) returns (p: Option<Password>)
      modifies this
      ensures (Value(), p) == TakePassword(old(Value()), a, now)
      ensures p.Some? <==> a in old(unlocked) && Lasts(old(unlocked)[a].unlock, now)
      ensures p.Some? ==> p.value == old(unlocked)[a].password
      ensures a in unlocked <==> p.Some? && old(unlocked)[a].unlock != OneTime
      ensures forall x :: x in unlocked ==> x in old(unlocked) && unlocked[x] == old(unlocked)[x]
      ensures forall x :: x != a && x in old(unlocked) ==> x in unlocked
      ensures unlockedSecrets == old(unlockedSecrets) && (Inv(old(Value())) ==> Inv(Value()))
    {
      if a !in unlocked {
        return None;
      }
      var data := unlocked[a];
      if data.unlock == OneTime {
        unlocked := unlocked - {a};
      }
      if data.unlock.Timed? && now > data.unlock.end {
        unlocked := unlocked - {a};
        return None;
      }
      return Some(data.password);
    }

    method UseOne(a: Address, kind: Kind, given: Option<Password>, known: bool, now: Time) returns (access: Access)
      requires Inv(Value())
      modifies this
      ensures Inv(Value()) && (Value(), access) == Use(old(Value()), a, kind, given, known, now)
    {
      StepKeeps(Value(), DoUse(a, kind, given, known, now));
      if !known {
        return Refused;
      }
      if kind == Signing && a in unlockedSecrets {
        return BySecret(unlockedSecrets[a]);
      }
      if given.Some? {
        return ByPassword(given.value);
      }
      var p := PasswordOf(a, now);
      return if p.Some? then ByPassword(p.value) else Refused;
    }
  }
}
