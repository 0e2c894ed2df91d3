/**
 Admin accounts and their second factors: a TOTP secret with its backup codes, and passkeys.
 The functions on a list of users say what each operation of `UserStore` does; passwords
 and backup codes are compared by a parameter that says which text matches which hash.
 */
module Accounts {
  import opened Prelude
  import Totp

  /** Whether a text matches a stored hash. */
  type Verify = (string, string) -> bool

  datatype BackupCode = BackupCode(hash: string, used: bool)

  datatype Passkey = Passkey(id: string, publicKey: string, signCount: nat)

  datatype User = User(username: string, hash: string, totp: Option<string>, codes: seq<BackupCode>, passkeys: seq<Passkey>)

  predicate HasFactor(u: User) {
    u.totp.Some? || u.passkeys != []
  }

  // ------------------------------------------------------------------ backup codes

  const CODE_ALPHABET := "23456789ABCDEFGHJKMNPQRSTUVWXYZ"
  const GROUP := 4

  predicate HasCodeShape(candidate: string) {
    |candidate| == 2 * GROUP + 1 && candidate[GROUP] == '-'
    && forall i :: 0 <= i < |candidate| && i != GROUP ==> candidate[i] in CODE_ALPHABET
  }

  predicate Fits(code: BackupCode, candidate: string, verify: Verify) {
    !code.used && verify(candidate, code.hash)
  }

  /** The first unused code that the candidate matches; the length of the list if there is none. */
  function MatchIndex(codes: seq<BackupCode>, candidate: string, verify: Verify): (r: nat)
    ensures r <= |codes|
    ensures forall k :: 0 <= k < r ==> !Fits(codes[k], candidate, verify)
    ensures r < |codes| ==> Fits(codes[r], candidate, verify)
  {
    if codes == [] || Fits(codes[0], candidate, verify) then 0 else 1 + MatchIndex(codes[1..], candidate, verify)
  }

  /** The codes after `candidate` is accepted, if it is. */
  function Spend(codes: seq<BackupCode>, candidate: string, verify: Verify): Option<seq<BackupCode>> {
    var i := MatchIndex(codes, candidate, verify);
    if HasCodeShape(candidate) && i < |codes| then Some(codes[i := codes[i].(used := true)]) else None
  }

  /** Every unused code is checked, whether or not one matched already. */
  method ConsumeCode(codes: seq<BackupCode>, candidate: string, verify: Verify) returns (ok: bool, left: seq<BackupCode>)
    ensures Spend(codes, candidate, verify) == if ok then Some(left) else None
    ensures !ok ==> left == codes
  {
    left := codes;
    if !HasCodeShape(candidate) {
      return false, left;
    }
    var matchIndex := -1;
    for i := 0 to |codes|
      invariant -1 <= matchIndex < i
      invariant matchIndex < 0 ==> forall k :: 0 <= k < i ==> !Fits(codes[k], candidate, verify)
      invariant matchIndex >= 0 ==> Fits(codes[matchIndex], candidate, verify)
                                    && forall k :: 0 <= k < matchIndex ==> !Fits(codes[k], candidate, verify)
    {
      if codes[i].used {
        continue;
      }
      if verify(candidate, codes[i].hash) && matchIndex < 0 {
        matchIndex := i;
      }
    }
    var first := MatchIndex(codes, candidate, verify);
    if matchIndex < 0 {
      return false, left;
    }
    assert first == matchIndex;
    left := left[matchIndex := left[matchIndex].(used := true)];
    return true, left;
  }

  function Unused(codes: seq<BackupCode>): nat {
    if codes == [] then 0 else (if codes[0].used then 0 else 1) + Unused(codes[1..])
  }

  /** How many more times a candidate can be accepted. */
  function Chances(codes: seq<BackupCode>, candidate: string, verify: Verify): nat {
    if codes == [] then 0 else (if Fits(codes[0], candidate, verify) then 1 else 0) + Chances(codes[1..], candidate, verify)
  }

  lemma {:induction false} UsedUpAt(codes: seq<BackupCode>, i: nat, candidate: string, verify: Verify)
    requires i < |codes| && !codes[i].used
    ensures var after := codes[i := codes[i].(used := true)];
            && Unused(after) == Unused(codes) - 1
            && Chances(after, candidate, verify) == Chances(codes, candidate, verify) - if Fits(codes[i], candidate, verify) then 1 else 0
  {
    var after := codes[i := codes[i].(used := true)];
    if i == 0 {
      assert after[1..] == codes[1..];
    } else {
      UsedUpAt(codes[1..], i - 1, candidate, verify);
      assert after[1..] == codes[1..][i - 1 := codes[i].(used := true)];
    }
  }

  lemma {:induction false} NoChance(codes: seq<BackupCode>, candidate: string, verify: Verify)
    ensures Chances(codes, candidate, verify) == 0 <==> MatchIndex(codes, candidate, verify) == |codes|
  {
    if codes != [] { NoChance(codes[1..], candidate, verify); }
  }

  /** Accepting a candidate uses up one code; a candidate is accepted exactly as often as there are unused codes it matches. */
  lemma {:induction false} SpendTakesOne(codes: seq<BackupCode>, candidate: string, verify: Verify)
    ensures Spend(codes, candidate, verify).Some? <==> HasCodeShape(candidate) && Chances(codes, candidate, verify) > 0
    ensures Spend(codes, candidate, verify).Some? ==>
              var left := Spend(codes, candidate, verify).value;
              && Unused(left) == Unused(codes) - 1
              && Chances(left, candidate, verify) == Chances(codes, candidate, verify) - 1
  {
    NoChance(codes, candidate, verify);
    var i := MatchIndex(codes, candidate, verify);
    if i < |codes| { UsedUpAt(codes, i, candidate, verify); }
  }

  /** Accepting one candidate gives no other a chance. */
  lemma {:induction false} SpendPays(codes: seq<BackupCode>, candidate: string, other: string, verify: Verify)
    requires Spend(codes, candidate, verify).Some?
    ensures Chances(Spend(codes, candidate, verify).value, other, verify) + (if other == candidate then 1 else 0) <= Chances(codes, other, verify)
  {
    UsedUpAt(codes, MatchIndex(codes, candidate, verify), other, verify);
  }

  // ------------------------------------------------------------------ the list of users

  function IndexOf(users: seq<User>, name: string): (r: nat)
    ensures r <= |users|
    ensures forall k :: 0 <= k < r ==> users[k].username != name
    ensures r < |users| ==> users[r].username == name
  {
    if users == [] || users[0].username == name then 0 else 1 + IndexOf(users[1..], name)
  }

  function Lookup(users: seq<User>, name: string): Option<User> {
    var i := IndexOf(users, name);
    if i < |users| then Some(users[i]) else None
  }

  /** `u` in the place of the user of the same name. */
  function Put(users: seq<User>, u: User): seq<User> {
    var i := IndexOf(users, u.username);
    if i < |users| then users[i := u] else users
  }

  ghost predicate Distinct(users: seq<User>) {
    forall i, j :: 0 <= i < j < |users| ==> users[i].username != users[j].username
  }

  function Erase(users: seq<User>, name: string): seq<User> {
    var i := IndexOf(users, name);
    if i < |users| then users[..i] + users[i + 1..] else users
  }

  lemma {:induction false} IndexIs(users: seq<User>, name: string, i: nat)
    requires i <= |users| && (forall k :: 0 <= k < i ==> users[k].username != name) && (i < |users| ==> users[i].username == name)
    ensures IndexOf(users, name) == i
  {
  }

  lemma {:induction false} LookupPut(users: seq<User>, u: User, name: string)
    requires Lookup(users, u.username).Some?
    ensures Lookup(Put(users, u), name) == if name == u.username then Some(u) else Lookup(users, name)
    ensures Distinct(users) ==> Distinct(Put(users, u))
    ensures |Put(users, u)| == |users|
  {
    IndexIs(Put(users, u), name, IndexOf(users, name));
  }

  lemma {:induction false} LookupSnoc(users: seq<User>, u: User, name: string)
    requires Lookup(users, u.username).None?
    ensures Lookup(users + [u], name) == if name == u.username then Some(u) else Lookup(users, name)
    ensures Distinct(users) ==> Distinct(users + [u])
  {
    var i := IndexOf(users, name);
    if i < |users| || name == u.username { IndexIs(users + [u], name, i); } else { IndexIs(users + [u], name, i + 1); }
  }

  lemma {:induction false} LookupErase(users: seq<User>, gone: string, name: string)
    requires Distinct(users)
    ensures Lookup(Erase(users, gone), name) == if name == gone then None else Lookup(users, name)
    ensures Distinct(Erase(users, gone))
  {
    var g := IndexOf(users, gone);
    if g < |users| {
      DistinctErased(users, g);
      if name == gone {
        ErasedIsGone(users, g);
      } else {
        IndexErased(users, g, name);
      }
    }
  }

  lemma {:induction false} DistinctErased(users: seq<User>, g: nat)
    requires Distinct(users) && g < |users|
    ensures Distinct(users[..g] + users[g + 1..])
  {
  }

  lemma {:induction false} ErasedIsGone(users: seq<User>, g: nat)
    requires Distinct(users) && g < |users|
    ensures IndexOf(users[..g] + users[g + 1..], users[g].username) == |users| - 1
  {
    IndexIs(users[..g] + users[g + 1..], users[g].username, |users| - 1);
  }

  lemma {:induction false} IndexErased(users: seq<User>, g: nat, name: string)
    requires g < |users| && users[g].username != name
    ensures var i := IndexOf(users, name); IndexOf(users[..g] + users[g + 1..], name) == if i < g then i else i - 1
  {
    var i, after := IndexOf(users, name), users[..g] + users[g + 1..];
    var k := if i < g then i else i - 1;
    forall x | 0 <= x < k ensures after[x].username != name {
      assert after[x] == if x < g then users[x] else users[x + 1];
    }
    IndexIs(after, name, k);
  }

  // ------------------------------------------------------------------ what the operations do

  const EMPTY_NAME := "username must not be empty"
  const SHORT_PASSWORD := "password must be at least 8 characters"
  const NAME_TAKEN := "username already exists"
  const NOT_FOUND := "user not found"
  const LAST_USER := "cannot remove the last remaining admin user"
  const NO_TOTP := "TOTP is not enabled for this user"

  /** `hash` is the salted hash that the password gets. */
  function Create(users: seq<User>, name: string, password: string, hash: string): Result<seq<User>> {
    if name == "" then Err(EMPTY_NAME)
    else if |password| < 8 then Err(SHORT_PASSWORD)
    else if Lookup(users, name).Some? then Err(NAME_TAKEN)
    else Ok(users + [User(name, hash, None, [], [])])
  }

  function Remove(users: seq<User>, name: string): Result<(bool, seq<User>)> {
    if Lookup(users, name).None? then Ok((false, users))
    else if |users| == 1 then Err(LAST_USER)
    else Ok((true, Erase(users, name)))
  }

  function Issue(hashes: seq<string>): seq<BackupCode> {
    seq(|hashes|, i requires 0 <= i < |hashes| => BackupCode(hashes[i], false))
  }

  function SetTotp(users: seq<User>, name: string, secret: string, hashes: seq<string>): Result<seq<User>> {
    match Lookup(users, name)
    case None => Err(NOT_FOUND)
    case Some(u) => Ok(Put(users, u.(totp := Some(secret), codes := Issue(hashes))))
  }

  function ClearTotp(users: seq<User>, name: string): Result<seq<User>> {
    match Lookup(users, name)
    case None => Err(NOT_FOUND)
    case Some(u) => Ok(Put(users, u.(totp := None, codes := [])))
  }

  function RegenerateCodes(users: seq<User>, name: string, hashes: seq<string>): Result<seq<User>> {
    match Lookup(users, name)
    case None => Err(NOT_FOUND)
    case Some(u) => if u.totp.None? then Err(NO_TOTP) else Ok(Put(users, u.(codes := Issue(hashes))))
  }

  function SpendCode(users: seq<User>, name: string, candidate: string, verify: Verify): Option<seq<User>> {
    match Lookup(users, name)
    case None => None
    case Some(u) =>
      match Spend(u.codes, candidate, verify)
      case None => None
      case Some(left) => Some(Put(users, u.(codes := left)))
  }

  function AddPasskey(users: seq<User>, name: string, passkey: Passkey): Result<seq<User>> {
    match Lookup(users, name)
    case None => Err(NOT_FOUND)
    case Some(u) => Ok(Put(users, u.(passkeys := u.passkeys + [passkey])))
  }

  function KeyIndex(passkeys: seq<Passkey>, id: string): (r: nat)
    ensures r <= |passkeys|
    ensures forall k :: 0 <= k < r ==> passkeys[k].id != id
    ensures r < |passkeys| ==> passkeys[r].id == id
  {
    if passkeys == [] || passkeys[0].id == id then 0 else 1 + KeyIndex(passkeys[1..], id)
  }

  function RemovePasskey(users: seq<User>, name: string, id: string): Option<seq<User>> {
    match Lookup(users, name)
    case None => None
    case Some(u) =>
      var k := KeyIndex(u.passkeys, id);
      if k == |u.passkeys| then None else Some(Put(users, u.(passkeys := u.passkeys[..k] + u.passkeys[k + 1..])))
  }

  function UpdateSignCount(users: seq<User>, name: string, id: string, count: nat): seq<User> {
    match Lookup(users, name)
    case None => users
    case Some(u) =>
      var k := KeyIndex(u.passkeys, id);
      if k == |u.passkeys| then users else Put(users, u.(passkeys := u.passkeys[k := u.passkeys[k].(signCount := count)]))
  }

  /** The first user with a passkey of that id. */
  function OwnerOf(users: seq<User>, id: string): (r: Option<User>)
    ensures r.Some? ==> r.value in users && KeyIndex(r.value.passkeys, id) < |r.value.passkeys|
  {
    if users == [] then None
    else if KeyIndex(users[0].passkeys, id) < |users[0].passkeys| then Some(users[0])
    else OwnerOf(users[1..], id)
  }

  // ------------------------------------------------------------------ the store

  class UserStore {
    var users: seq<User>
    var lastStep: map<string, int>

    constructor ()
      ensures users == [] && lastStep == map[]
    {
      users := [];
      lastStep := map[];
    }

    method FindIndex(name: string) returns (i: nat)
      ensures i == IndexOf(users, name)
    {
      i := 0;
      while i < |users| && users[i].username != name
        invariant i <= |users| && forall k :: 0 <= k < i ==> users[k].username != name
      {
        i := i + 1;
      }
      IndexIs(users, name, i);
    }

    method Find(name: string) returns (u: Option<User>)
      ensures u == Lookup(users, name)
    {
      var i := FindIndex(name);
      u := if i == |users| then None else Some(users[i]);
    }

    method CreateUser(name: string, password: string, hash: string) returns (error: Option<string>)
      modifies `users
      ensures Create(old(users), name, password, hash) == match error case None => Ok(users) case Some(e) => Err(e)
      ensures error.Some? ==> users == old(users)
    {
      if name == "" {
        return Some(EMPTY_NAME);
      }
      if |password| < 8 {
        return Some(SHORT_PASSWORD);
      }
      var i := FindIndex(name);
      if i < |users| {
        return Some(NAME_TAKEN);
      }
      users := users + [User(name, hash, None, [], [])];
      return None;
    }

    /** Adds the user only to an empty store; `created` says whether it did. */
    method CreateIfEmpty(name: string, password: string, hash: string) returns (created: bool, error: Option<string>)
      modifies `users
      ensures created ==> old(users) == [] && error.None? && Create([], name, password, hash) == Ok(users)
      ensures !created ==> users == old(users)
      ensures error.Some? ==> !created && Create([], name, password, hash) == Err(error.value)
      ensures error.None? && !created ==> old(users) != [] && name != "" && |password| >= 8
    {
      if name == "" {
        return false, Some(EMPTY_NAME);
      }
      if |password| < 8 {
        return false, Some(SHORT_PASSWORD);
      }
      if users != [] {
        return false, None;
      }
      users := users + [User(name, hash, None, [], [])];
      return true, None;
    }

    method RemoveUser(name: string) returns (removed: bool, error: Option<string>)
      modifies `users
      ensures Remove(old(users), name) == match error case None => Ok((removed, users)) case Some(e) => Err(e)
      ensures error.Some? ==> users == old(users)
    {
      var i := FindIndex(name);
      if i == |users| {
        return false, None;
      }
      if |users| == 1 {
        return false, Some(LAST_USER);
      }
      users := users[..i] + users[i + 1..];
      return true, None;
    }

    method StoreTotp(name: string, secret: string, hashes: seq<string>) returns (ok: bool)
      modifies `users
      ensures SetTotp(old(users), name, secret, hashes) == if ok then Ok(users) else Err(NOT_FOUND)
      ensures !ok ==> users == old(users)
    {
      var i := FindIndex(name);
      if i == |users| {
        return false;
      }
      users := users[i := users[i].(totp := Some(secret), codes := Issue(hashes))];
      return true;
    }

    method DropTotp(name: string) returns (ok: bool)
      modifies `users
      ensures ClearTotp(old(users), name) == if ok then Ok(users) else Err(NOT_FOUND)
      ensures !ok ==> users == old(users)
    {
      var i := FindIndex(name);
      if i == |users| {
        return false;
      }
      users := users[i := users[i].(totp := None, codes := [])];
      return true;
    }

    method Regenerate(name: string, hashes: seq<string>) returns (error: Option<string>)
      modifies `users
      ensures RegenerateCodes(old(users), name, hashes) == match error case None => Ok(users) case Some(e) => Err(e)
      ensures error.Some? ==> users == old(users)
    {
      var i := FindIndex(name);
      if i == |users| {
        return Some(NOT_FOUND);
      }
      if users[i].totp.None? {
        return Some(NO_TOTP);
      }
      users := users[i := users[i].(codes := Issue(hashes))];
      return None;
    }

    method ConsumeBackupCode(name: string, candidate: string, verify: Verify) returns (ok: bool)
      modifies `users
      ensures SpendCode(old(users), name, candidate, verify) == if ok then Some(users) else None
      ensures !ok ==> users == old(users)
    {
      var i := FindIndex(name);
      if i == |users| {
        return false;
      }
      var left;
      ok, left := ConsumeCode(users[i].codes, candidate, verify);
      if ok {
        users := users[i := users[i].(codes := left)];
      }
    }

    method ConsumeTotpStep(name: string, step: int) returns (ok: bool)
      modifies `lastStep
      ensures (lastStep, ok) == Totp.ConsumeStep(old(lastStep), name, step)
    {
      if name in lastStep && step <= lastStep[name] {
        return false;
      }
      lastStep := lastStep[name := step];
      return true;
    }

    method StorePasskey(name: string, passkey: Passkey) returns (ok: bool)
      modifies `users
      ensures AddPasskey(old(users), name, passkey) == if ok then Ok(users) else Err(NOT_FOUND)
      ensures !ok ==> users == old(users)
    {
      var i := FindIndex(name);
      if i == |users| {
        return false;
      }
      users := users[i := users[i].(passkeys := users[i].passkeys + [passkey])];
      return true;
    }

    method DropPasskey(name: string, id: string) returns (ok: bool)
      modifies `users
      ensures RemovePasskey(old(users), name, id) == if ok then Some(users) else None
      ensures !ok ==> users == old(users)
    {
      var i := FindIndex(name);
      if i == |users| {
        return false;
      }
      var keys := users[i].passkeys;
      var k := KeyIndex(keys, id);
      if k == |keys| {
        return false;
      }
      users := users[i := users[i].(passkeys := keys[..k] + keys[k + 1..])];
      return true;
    }

    method StoreSignCount(name: string, id: string, count: nat)
      modifies `users
      ensures users == UpdateSignCount(old(users), name, id, count)
    {
      var i := FindIndex(name);
      if i == |users| {
        return;
      }
      var keys := users[i].passkeys;
      var k := KeyIndex(keys, id);
      if k == |keys| {
        return;
      }
      users := users[i := users[i].(passkeys := keys[k := keys[k].(signCount := count)])];
    }

    method FindByCredential(id: string) returns (owner: Option<User>)
      ensures owner == OwnerOf(users, id)
    {
      assert users[0..] == users;
      for i := 0 to |users|
        invariant OwnerOf(users, id) == OwnerOf(users[i..], id)
      {
        if KeyIndex(users[i].passkeys, id) < |users[i].passkeys| {
          return Some(users[i]);
        }
      }
      return None;
    }
  }
}
