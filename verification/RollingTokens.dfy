/**
 Signing with rolling tokens: each token is the password of an in-memory copy of the
 account, and using it changes that password to a new token.
 */
module RollingTokens {
  import opened Wrappers

  type Address = nat
  type Password = string

  datatype Vault = Root | Named(name: string)

  /** The in-memory store orders accounts by address and vault. */
  datatype AccountRef = AccountRef(address: Address, vault: Vault)

  /** An encrypted account; passwords are checked exactly. */
  datatype SafeAccount = SafeAccount(id: nat, salt: nat, password: Password)

  type Cache = map<AccountRef, seq<SafeAccount>>

  // ---------------------------------------------------------------- the store of copies

  function Accounts(c: Cache, r: AccountRef): seq<SafeAccount> { if r in c then c[r] else [] }

  function Matching(s: seq<SafeAccount>, p: Password): seq<SafeAccount> {
    if s == [] then []
    else
      var n := |s| - 1;
      Matching(s[..n], p) + if s[n].password == p then [s[n]] else []
  }

  function Without(s: seq<SafeAccount>, out: seq<SafeAccount>): seq<SafeAccount> {
    if s == [] then []
    else
      var n := |s| - 1;
      Without(s[..n], out) + if s[n] in out then [] else [s[n]]
  }

  /** `update`: every account equal to the old one goes, the new one comes last. */
  function Replaced(s: seq<SafeAccount>, before: SafeAccount, after: SafeAccount): seq<SafeAccount> {
    Without(s, [before]) + [after]
  }

  function Rekeyed(s: seq<SafeAccount>, p: Password, salts: seq<nat>): seq<SafeAccount>
    requires |salts| == |s|
  {
    seq(|s|, i requires 0 <= i < |s| => WithPassword(s[i], p, salts[i]))
  }

  lemma {:induction false} MatchingElements(s: seq<SafeAccount>, p: Password)
    ensures forall a :: a in Matching(s, p) <==> a in s && a.password == p
    ensures |Matching(s, p)| <= |s|
  {
    if s != [] {
      var n := |s| - 1;
      MatchingElements(s[..n], p);
      assert s == s[..n] + [s[n]];
    }
  }

  lemma MatchingAppend(s: seq<SafeAccount>, a: SafeAccount, p: Password)
    ensures Matching(s + [a], p) == Matching(s, p) + if a.password == p then [a] else []
  {
    assert (s + [a])[..|s|] == s;
  }

  lemma MatchingPut(c: Cache, r: AccountRef, a: SafeAccount)
    ensures var d := c[r := Accounts(c, r) + [a]];
            forall q, p :: Matching(Accounts(d, q), p)
              == Matching(Accounts(c, q), p) + if q == r && p == a.password then [a] else []
  {
    var d := c[r := Accounts(c, r) + [a]];
    forall q, p ensures Matching(Accounts(d, q), p)
      == Matching(Accounts(c, q), p) + if q == r && p == a.password then [a] else []
    {
      if q == r {
        MatchingAppend(Accounts(c, r), a, p);
      } else {
        assert Accounts(d, q) == Accounts(c, q);
      }
    }
  }

  lemma {:induction false} NoneMatching(s: seq<SafeAccount>, p: Password)
    requires forall a :: a in s ==> a.password != p
    ensures Matching(s, p) == []
  {
    if s != [] {
      var n := |s| - 1;
      assert s == s[..n] + [s[n]];
      NoneMatching(s[..n], p);
    }
  }

  lemma {:induction false} WithoutElements(s: seq<SafeAccount>, out: seq<SafeAccount>)
    ensures forall a :: a in Without(s, out) <==> a in s && a !in out
  {
    if s != [] {
      var n := |s| - 1;
      WithoutElements(s[..n], out);
      assert s == s[..n] + [s[n]];
    }
  }

  lemma {:induction false} WithoutAppend(s: seq<SafeAccount>, t: seq<SafeAccount>, out: seq<SafeAccount>)
    ensures Without(s + t, out) == Without(s, out) + Without(t, out)
  {
    if t == [] {
      assert s + t == s;
    } else {
      var n := |t| - 1;
      WithoutAppend(s, t[..n], out);
      assert (s + t)[..|s| + n] == s + t[..n];
    }
  }

  lemma {:induction false} WithoutTwice(s: seq<SafeAccount>, out: seq<SafeAccount>, a: SafeAccount)
    ensures Without(Without(s, out), [a]) == Without(s, out + [a])
  {
    if s != [] {
      var n := |s| - 1;
      WithoutTwice(s[..n], out, a);
      WithoutAppend(Without(s[..n], out), if s[n] in out then [] else [s[n]], [a]);
      assert [s[n]][..0] == [];
    }
  }

  lemma {:induction false} WithoutNothing(s: seq<SafeAccount>, out: seq<SafeAccount>)
    requires forall a :: a in s ==> a !in out
    ensures Without(s, out) == s
  {
    if s != [] {
      var n := |s| - 1;
      assert s == s[..n] + [s[n]];
      WithoutNothing(s[..n], out);
    }
  }

  function WithPassword(a: SafeAccount, p: Password, salt: nat): SafeAccount { a.(salt := salt, password := p) }

  lemma RekeyedAppend(ms: seq<SafeAccount>, i: nat, p: Password, salts: seq<nat>)
    requires i < |ms| == |salts|
    ensures Rekeyed(ms[..i + 1], p, salts[..i + 1])
         == Rekeyed(ms[..i], p, salts[..i]) + [WithPassword(ms[i], p, salts[i])]
  {
  }

  lemma RekeyedKeepsOut(ms: seq<SafeAccount>, p: Password, salts: seq<nat>, a: SafeAccount)
    requires |ms| == |salts| && a.password != p
    ensures Without(Rekeyed(ms, p, salts), [a]) == Rekeyed(ms, p, salts)
  {
    WithoutNothing(Rekeyed(ms, p, salts), [a]);
  }

  /** What the accounts are after `i` passes of the loop in `change_password`. */
  function Passed(s: seq<SafeAccount>, ms: seq<SafeAccount>, i: nat, p: Password, salts: seq<nat>): seq<SafeAccount>
    requires i <= |ms| == |salts|
  {
    Without(s, ms[..i]) + Rekeyed(ms[..i], p, salts[..i])
  }

  lemma NoPass(s: seq<SafeAccount>, ms: seq<SafeAccount>, p: Password, salts: seq<nat>)
    requires |ms| == |salts|
    ensures Passed(s, ms, 0, p, salts) == s
  {
    WithoutNothing(s, ms[..0]);
  }

  lemma OnePass(s: seq<SafeAccount>, ms: seq<SafeAccount>, i: nat, p: Password, salts: seq<nat>)
    requires i < |ms| == |salts| && ms[i].password != p
    ensures Replaced(Passed(s, ms, i, p, salts), ms[i], WithPassword(ms[i], p, salts[i]))
         == Passed(s, ms, i + 1, p, salts)
  {
    var kept, done := Without(s, ms[..i]), Rekeyed(ms[..i], p, salts[..i]);
    WithoutAppend(kept, done, [ms[i]]);
    WithoutTwice(s, ms[..i], ms[i]);
    assert ms[..i] + [ms[i]] == ms[..i + 1];
    RekeyedKeepsOut(ms[..i], p, salts[..i], ms[i]);
    RekeyedAppend(ms, i, p, salts);
  }

  lemma OnePassStored(c: Cache, r: AccountRef, s: seq<SafeAccount>, ms: seq<SafeAccount>, i: nat, p: Password,
                      salts: seq<nat>)
    requires i < |ms| == |salts| && ms[i].password != p
    ensures var d := c[r := Passed(s, ms, i, p, salts)];
            d[r := Replaced(Accounts(d, r), ms[i], WithPassword(ms[i], p, salts[i]))]
            == c[r := Passed(s, ms, i + 1, p, salts)]
  {
    OnePass(s, ms, i, p, salts);
  }

  lemma AllPasses(s: seq<SafeAccount>, token: Password, p: Password, salts: seq<nat>)
    requires |salts| == |Matching(s, token)|
    ensures Passed(s, Matching(s, token), |salts|, p, salts) == AfterChange(s, token, p, salts)
  {
    var ms := Matching(s, token);
    assert ms[..|salts|] == ms && salts[..|salts|] == salts;
  }

  lemma MatchingAt(s: seq<SafeAccount>, token: Password, i: nat)
    requires i < |Matching(s, token)|
    ensures Matching(s, token)[i].password == token
  {
    MatchingElements(s, token);
    assert Matching(s, token)[i] in Matching(s, token);
  }

  class CfxMultiStore {
    var cache: Cache

    constructor ()
      ensures cache == map[]
    {
      cache := map[];
    }

    method GetMatching(r: AccountRef, p: Password) returns (ms: seq<SafeAccount>)
      ensures ms == Matching(Accounts(cache, r), p)
    {
      var s := Accounts(cache, r);
      ms := [];
      for i := 0 to |s|
        invariant ms == Matching(s[..i], p)
      {
        assert s[..i + 1][..i] == s[..i];
        if s[i].password == p {
          ms := ms + [s[i]];
        }
      }
      assert s[..|s|] == s;
    }

    /** The account is found last under its own reference and password, and nothing else is found differently. */
    method Import(r: AccountRef, account: SafeAccount)
      modifies this
      ensures cache == old(cache)[r := Accounts(old(cache), r) + [account]]
      ensures forall q, p :: Matching(Accounts(cache, q), p)
                == Matching(Accounts(old(cache), q), p) + if q == r && p == account.password then [account] else []
    {
      MatchingPut(cache, r, account);
      cache := cache[r := Accounts(cache, r) + [account]];
    }

    method Update(r: AccountRef, before: SafeAccount, after: SafeAccount)
      modifies this
      ensures cache == old(cache)[r := Replaced(Accounts(old(cache), r), before, after)]
    {
      var s := Accounts(cache, r);
      var kept := [];
      for i := 0 to |s|
        invariant kept == Without(s[..i], [before])
      {
        assert s[..i + 1][..i] == s[..i];
        if s[i] != before {
          kept := kept + [s[i]];
        }
      }
      assert s[..|s|] == s;
      cache := cache[r := kept + [after]];
    }

    /** The loop re-keys every account that has the old password, and no other. */
    method ChangePassword(r: AccountRef, token: Password, p: Password, salts: seq<nat>) returns (ok: bool)
      requires p != token && |salts| == |Matching(Accounts(cache, r), token)|
      modifies this
      ensures ok <==> Matching(Accounts(old(cache), r), token) != []
      ensures cache == if ok then old(cache)[r := AfterChange(Accounts(old(cache), r), token, p, salts)] else old(cache)
    {
      var ms := GetMatching(r, token);
      if ms == [] {
        return false;
      }
      ghost var s := Accounts(cache, r);
      NoPass(s, ms, p, salts);
      assert cache == cache[r := s];
      for i := 0 to |ms|
        invariant cache == old(cache)[r := Passed(s, ms, i, p, salts)]
      {
        MatchingAt(s, token, i);
        OnePassStored(old(cache), r, s, ms, i, p, salts);
        Update(r, ms[i], WithPassword(ms[i], p, salts[i]));
      }
      AllPasses(s, token, p, salts);
      return true;
    }
  }

  /** The accounts without the old password as they were, then the others with the new one. */
  function AfterChange(s: seq<SafeAccount>, token: Password, p: Password, salts: seq<nat>): seq<SafeAccount>
    requires |salts| == |Matching(s, token)|
  {
    Without(s, Matching(s, token)) + Rekeyed(Matching(s, token), p, salts)
  }

  // ---------------------------------------------------------------- signing with a token

  /** An account of the main store: where it is, and its own password. */
  datatype Main = Main(vault: Vault, password: Password)

  /** `issued` are the tokens handed out so far. */
  datatype World = World(main: map<Address, Main>, cache: Cache, issued: set<Password>)

  /** What chance provides for a call: the new token, and the id and salts of encrypted accounts. */
  datatype Chance = Chance(token: Password, id: nat, salt: nat, salts: seq<nat>)

  function RefOf(w: World, a: Address): AccountRef
    requires a in w.main
  {
    AccountRef(a, w.main[a].vault)
  }

  predicate EnoughSalts(w: World, a: Address, token: Password, c: Chance) {
    a in w.main ==> |c.salts| == |Matching(Accounts(w.cache, RefOf(w, a)), token)|
  }

  /** `sign_with_token`: the token for the next call, if the signature is given. */
  function SignWithToken(w: World, a: Address, token: Password, c: Chance): (World, Option<Password>)
    requires EnoughSalts(w, a, token, c)
  {
    if a !in w.main then (w, None)
    else if w.main[a].password == token then
      var root := AccountRef(a, Root);
      (w.(cache := w.cache[root := Accounts(w.cache, root) + [SafeAccount(c.id, c.salt, c.token)]],
          issued := w.issued + {c.token}), Some(c.token))
    else
      var r := RefOf(w, a);
      if Matching(Accounts(w.cache, r), token) == [] then (w, None)
      else
        var after := AfterChange(Accounts(w.cache, r), token, c.token, c.salts);
        var v := w.(cache := w.cache[r := after], issued := w.issued + {c.token});
        (v, if Matching(after, c.token) == [] then None else Some(c.token))
  }

  /** The token is the password of the account, or of one of its copies where the store looks for them. */
  predicate Accepts(w: World, a: Address, token: Password) {
    a in w.main && (w.main[a].password == token || Matching(Accounts(w.cache, RefOf(w, a)), token) != [])
  }

  /** Copies are made in the root vault only, their passwords are tokens, and no account's own password is one. */
  ghost predicate Inv(w: World) {
    && CopiesHaveTokens(w.cache, w.issued)
    && (forall a :: a in w.main ==> w.main[a].password !in w.issued)
  }

  ghost predicate CopiesHaveTokens(c: Cache, issued: set<Password>) {
    forall r: AccountRef :: CopiesOf(c, r, issued)
  }

  ghost predicate CopiesOf(c: Cache, r: AccountRef, issued: set<Password>) {
    && (r.vault != Root ==> Accounts(c, r) == [])
    && (forall x :: x in Accounts(c, r) ==> x.password in issued)
  }

  datatype Event = Sign(a: Address, token: Password, c: Chance) | SetMain(a: Address, account: Option<Main>)

  /** New tokens have not been seen before, and nobody picks a token as password. */
  ghost predicate Possible(w: World, e: Event) {
    match e
    case Sign(a, token, c) =>
      && EnoughSalts(w, a, token, c)
      && c.token !in w.issued && c.token != token
      && (forall b :: b in w.main ==> w.main[b].password != c.token)
    case SetMain(a, account) => account.Some? ==> account.value.password !in w.issued
  }

  ghost function Step(w: World, e: Event): World
    requires Possible(w, e)
  {
    match e
    case Sign(a, token, c) => SignWithToken(w, a, token, c).0
    case SetMain(a, account) =>
      w.(main := if account.Some? then w.main[a := account.value] else w.main - {a})
  }

  /** Where a password was changed, nothing has the old one, all others are still there, and the new one is. */
  lemma AfterChangeElements(s: seq<SafeAccount>, token: Password, p: Password, salts: seq<nat>)
    requires |salts| == |Matching(s, token)| && p != token
    ensures forall x :: x in AfterChange(s, token, p, salts) ==> (x in s && x.password != token) || x.password == p
    ensures forall x :: x in s && x.password != token ==> x in AfterChange(s, token, p, salts)
    ensures Matching(s, token) != [] ==> Matching(AfterChange(s, token, p, salts), p) != []
  {
    var ms := Matching(s, token);
    var after := AfterChange(s, token, p, salts);
    MatchingElements(s, token);
    WithoutElements(s, ms);
    MatchingElements(after, p);
    if ms != [] {
      var x := WithPassword(ms[0], p, salts[0]);
      assert after[|Without(s, ms)|] == x;
      assert x in Matching(after, p);
    }
  }

  lemma PutKeeps(c: Cache, issued: set<Password>, r: AccountRef, s: seq<SafeAccount>, p: Password)
    requires CopiesHaveTokens(c, issued) && r.vault == Root
    requires forall x :: x in s ==> x in Accounts(c, r) || x.password == p
    ensures CopiesHaveTokens(c[r := s], issued + {p})
  {
    var d := c[r := s];
    forall q: AccountRef ensures CopiesOf(d, q, issued + {p}) {
      assert CopiesOf(c, q, issued);
      assert q != r ==> Accounts(d, q) == Accounts(c, q);
    }
  }

  lemma StepKeeps(w: World, e: Event)
    requires Inv(w) && Possible(w, e)
    ensures Inv(Step(w, e)) && w.issued <= Step(w, e).issued
  {
    if e.Sign? && e.a in w.main {
      var r, root := RefOf(w, e.a), AccountRef(e.a, Root);
      var s := Accounts(w.cache, r);
      if w.main[e.a].password == e.token {
        PutKeeps(w.cache, w.issued, root,
          Accounts(w.cache, root) + [SafeAccount(e.c.id, e.c.salt, e.c.token)], e.c.token);
      } else if Matching(s, e.token) != [] {
        if r.vault != Root { NamedVaultHasNoCopies(w, r, e.token); }
        AfterChangeElements(s, e.token, e.c.token, e.c.salts);
        PutKeeps(w.cache, w.issued, r, AfterChange(s, e.token, e.c.token, e.c.salts), e.c.token);
      }
    }
  }

  /** A signature is given exactly for an accepted token. */
  lemma SignedExactly(w: World, a: Address, token: Password, c: Chance)
    requires EnoughSalts(w, a, token, c) && c.token != token
    ensures SignWithToken(w, a, token, c).1 == if Accepts(w, a, token) then Some(c.token) else None
  {
    if a in w.main { AfterChangeElements(Accounts(w.cache, RefOf(w, a)), token, c.token, c.salts); }
  }

  /** The token has been handed out, and no copy of the account has it any more. */
  ghost predicate Spent(w: World, a: Address, token: Password) {
    && token in w.issued
    && forall x :: x in Accounts(w.cache, AccountRef(a, Root)) ==> x.password != token
  }

  lemma SpentIsRefused(w: World, a: Address, token: Password)
    requires Inv(w) && Spent(w, a, token)
    ensures !Accepts(w, a, token)
  {
    if a in w.main {
      if w.main[a].vault == Root {
        NoneMatching(Accounts(w.cache, RefOf(w, a)), token);
      } else {
        NamedVaultHasNoCopies(w, RefOf(w, a), token);
      }
    }
  }

  lemma SpentStays(w: World, e: Event, a: Address, token: Password)
    requires Inv(w) && Possible(w, e) && Spent(w, a, token)
    ensures Spent(Step(w, e), a, token)
  {
    if e.Sign? && e.a in w.main && w.main[e.a].password != e.token {
      AfterChangeElements(Accounts(w.cache, RefOf(w, e.a)), e.token, e.c.token, e.c.salts);
    }
  }

  /** An accepted token is spent by being accepted. */
  lemma AcceptedIsSpent(w: World, a: Address, token: Password, c: Chance)
    requires Inv(w) && Possible(w, Sign(a, token, c)) && token in w.issued && Accepts(w, a, token)
    ensures Spent(Step(w, Sign(a, token, c)), a, token)
  {
    var s := Accounts(w.cache, RefOf(w, a));
    AfterChangeElements(s, token, c.token, c.salts);
    assert CopiesOf(w.cache, RefOf(w, a), w.issued);
  }

  ghost predicate Reaches(w: World, es: seq<Event>, v: World)
    decreases |es|
  {
    if es == [] then v == w else Possible(w, es[0]) && Reaches(Step(w, es[0]), es[1..], v)
  }

  lemma {:induction false} SpentForever(w: World, es: seq<Event>, v: World, a: Address, token: Password)
    requires Inv(w) && Spent(w, a, token) && Reaches(w, es, v)
    ensures Inv(v) && Spent(v, a, token)
    decreases |es|
  {
    if es != [] {
      StepKeeps(w, es[0]);
      SpentStays(w, es[0], a, token);
      SpentForever(Step(w, es[0]), es[1..], v, a, token);
    }
  }

  /** Once accepted, a token is never accepted again, whatever happens in between. */
  lemma AcceptedOnce(w: World, a: Address, token: Password, c: Chance, es: seq<Event>, v: World)
    requires Inv(w) && Possible(w, Sign(a, token, c)) && token in w.issued && Accepts(w, a, token)
    requires Reaches(Step(w, Sign(a, token, c)), es, v)
    ensures !Accepts(v, a, token)
  {
    StepKeeps(w, Sign(a, token, c));
    AcceptedIsSpent(w, a, token, c);
    SpentForever(Step(w, Sign(a, token, c)), es, v, a, token);
    SpentIsRefused(v, a, token);
  }

  /** The token handed out is accepted next exactly for accounts of the root vault. */
  lemma NextIsAccepted(w: World, a: Address, token: Password, c: Chance)
    requires Inv(w) && Possible(w, Sign(a, token, c)) && Accepts(w, a, token)
    ensures Accepts(Step(w, Sign(a, token, c)), a, c.token) <==> w.main[a].vault == Root
  {
    var v := Step(w, Sign(a, token, c));
    var r := RefOf(w, a);
    var s := Accounts(w.cache, r);
    MatchingElements(s, token);
    AfterChangeElements(s, token, c.token, c.salts);
    if w.main[a].password == token {
      MatchingElements(Accounts(v.cache, r), c.token);
      if r.vault == Root {
        assert SafeAccount(c.id, c.salt, c.token) in Accounts(v.cache, r);
        assert SafeAccount(c.id, c.salt, c.token) in Matching(Accounts(v.cache, r), c.token);
      } else {
        NamedVaultHasNoCopies(w, r, c.token);
      }
    } else {
      assert CopiesOf(w.cache, r, w.issued);
    }
  }

  lemma NamedVaultHasNoCopies(w: World, r: AccountRef, token: Password)
    requires Inv(w) && r.vault != Root
    ensures Matching(Accounts(w.cache, r), token) == []
  {
    assert CopiesOf(w.cache, r, w.issued);
  }

  /** For instance: the first token of an account in a named vault is not accepted. */
  lemma NamedVaultTokenRefused(name: string, password: Password, token: Password)
    requires token != password
    ensures var w := World(map[0 := Main(Named(name), password)], map[], {});
            var c := Chance(token, 0, 0, []);
            && Inv(w) && Possible(w, Sign(0, password, c)) && Accepts(w, 0, password)
            && SignWithToken(w, 0, password, c).1 == Some(token)
            && !Accepts(Step(w, Sign(0, password, c)), 0, token)
  {
    var w := World(map[0 := Main(Named(name), password)], map[], {});
    assert forall r :: Accounts(w.cache, r) == [];
    NextIsAccepted(w, 0, password, Chance(token, 0, 0, []));
  }

  /** The tokens of other sessions, and of other accounts, go on being accepted. */
  lemma OthersGoOn(w: World, a: Address, token: Password, c: Chance, b: Address, other: Password)
    requires Inv(w) && Possible(w, Sign(a, token, c)) && Accepts(w, b, other) && (b != a || other != token)
    ensures Accepts(Step(w, Sign(a, token, c)), b, other)
  {
    var r := RefOf(w, b);
    var s := Accounts(w.cache, r);
    if a in w.main && Matching(s, other) != [] {
      if w.main[a].password == token {
        MatchingPut(w.cache, AccountRef(a, Root), SafeAccount(c.id, c.salt, c.token));
      } else if RefOf(w, a) == r {
        OtherKept(s, token, c.token, c.salts, other);
      }
    }
  }

  /** A change of one password leaves who has another. */
  lemma OtherKept(s: seq<SafeAccount>, token: Password, p: Password, salts: seq<nat>, other: Password)
    requires |salts| == |Matching(s, token)| && p != token && other != token && Matching(s, other) != []
    ensures Matching(AfterChange(s, token, p, salts), other) != []
  {
    AfterChangeElements(s, token, p, salts);
    MatchingElements(s, other);
    MatchingElements(AfterChange(s, token, p, salts), other);
    var x := Matching(s, other)[0];
    assert x in Matching(s, other);
    assert x in AfterChange(s, token, p, salts);
    assert x in Matching(AfterChange(s, token, p, salts), other);
  }

  // ---------------------------------------------------------------- the object

  class TokenSigner {
    var main: map<Address, Main>
    const transient: CfxMultiStore
    ghost var issued: set<Password>

    ghost function Value(): World
      reads this, transient
    {
      World(main, transient.cache, issued)
    }

    constructor (accounts: map<Address, Main>)
      ensures Value() == World(accounts, map[], {}) && Inv(Value())
    {
      main, issued := accounts, {};
      transient := new CfxMultiStore();
      new;
      assert forall r :: Accounts(map[], r) == [];
    }

    method SignMessage(a: Address, token: Password, c: Chance) returns (next: Option<Password>)
      requires EnoughSalts(Value(), a, token, c) && c.token != token
      modifies this, transient
      ensures (Value(), next) == SignWithToken(old(Value()), a, token, c)
    {
      if a !in main {
        return None;
      }
      var r := AccountRef(a, main[a].vault);
      if main[a].password == token {
        transient.Import(AccountRef(a, Root), SafeAccount(c.id, c.salt, c.token));
        issued := issued + {c.token};
        return Some(c.token);
      }
      var changed := transient.ChangePassword(r, token, c.token, c.salts);
      if !changed {
        return None;
      }
      issued := issued + {c.token};
      var ms := transient.GetMatching(r, c.token);
      return if ms == [] then None else Some(c.token);
    }
  }
}
