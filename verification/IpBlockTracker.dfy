/**
 Temporary blocks of single addresses and of CIDR ranges.  Expired entries are pruned when
 an add finds the last prune long enough ago and when the list is shown; `Current` is the
 tracker that never prunes, and with a clock that does not step back the two cannot be told
 apart by asking.
 */
module IpBlockTracker {
  import opened Prelude
  import NetUtils

  type Ip = a: NetUtils.Address | |a.bytes| == NetUtils.Size(a) witness NetUtils.V4([0, 0, 0, 0])

  datatype Entry = Entry(text: string, isCidr: bool, address: Ip, prefixLen: nat, source: string,
                         scoreAtBlock: int, createdAt: int, expiresAt: int)

  /** A prefix length never reaches past its address: `NetUtils.ParsedRangeIsValid`. */
  type Block = b: Entry | b.isCidr ==> b.prefixLen <= 8 * NetUtils.Size(b.address)
    witness Entry("", false, NetUtils.V4([0, 0, 0, 0]), 0, "", 0, 0, 0)

  predicate Covers(b: Block, ip: Ip) {
    if b.isCidr then NetUtils.AddressInCidr(ip, NetUtils.CidrRange(b.address, b.prefixLen, b.text)) else b.address == ip
  }

  datatype State = State(exact: map<Ip, Block>, cidrs: seq<Block>, lastPrune: int)

  /** `b` is stored. */
  predicate Holds(s: State, b: Block) {
    if b.isCidr then b in s.cidrs else b.address in s.exact && s.exact[b.address] == b
  }

  ghost predicate Valid(s: State) {
    && (forall a :: a in s.exact ==> Filed(s.exact[a], a))
    && (forall b :: b in s.cidrs ==> b.isCidr)
    && Distinct(s.cidrs)
  }

  predicate Filed(b: Block, a: Ip) {
    !b.isCidr && b.address == a
  }

  ghost predicate Distinct(blocks: seq<Block>) {
    forall i, j :: 0 <= i < j < |blocks| ==> blocks[i] != blocks[j]
  }

  // ------------------------------------------------------------------ what one call does

  function UnexpiredAddresses(exact: map<Ip, Block>, now: int): map<Ip, Block> {
    map a | a in exact && exact[a].expiresAt > now :: exact[a]
  }

  function Unexpired(blocks: seq<Block>, now: int): (r: seq<Block>)
    ensures forall b :: b in r <==> b in blocks && b.expiresAt > now
  {
    if blocks == [] then []
    else
      assert blocks == Front(blocks) + [Last(blocks)];
      Unexpired(Front(blocks), now) + if Last(blocks).expiresAt > now then [Last(blocks)] else []
  }

  function Without(blocks: seq<Block>, text: string): (r: seq<Block>)
    ensures forall b :: b in r <==> b in blocks && b.text != text
  {
    if blocks == [] then []
    else
      assert blocks == Front(blocks) + [Last(blocks)];
      Without(Front(blocks), text) + if Last(blocks).text != text then [Last(blocks)] else []
  }

  function Prune(s: State, now: int): State {
    State(UnexpiredAddresses(s.exact, now), Unexpired(s.cidrs, now), s.lastPrune)
  }

  function Store(s: State, b: Block): State {
    if !b.isCidr then s.(exact := s.exact[b.address := b])
    else s.(cidrs := Without(s.cidrs, b.text) + [b])
  }

  function Add(s: State, interval: int, b: Block, now: int): State {
    Store(if now - s.lastPrune >= interval then Prune(s, now).(lastPrune := now) else s, b)
  }

  function Listed(s: State, now: int): State {
    Prune(s, now).(lastPrune := now)
  }

  /** `parse` is the address parser of the network library. */
  function Remove(s: State, parse: string -> Option<Ip>, text: string): State {
    match parse(text)
    case Some(address) => s.(exact := s.exact - {address})
    case None => s.(cidrs := Without(s.cidrs, text))
  }

  /** Some stored block that has not expired covers the address. */
  ghost predicate Blocked(s: State, ip: Ip, now: int) {
    exists b: Block :: Holds(s, b) && Blocks(b, ip, now)
  }

  predicate Blocks(b: Block, ip: Ip, now: int) {
    b.expiresAt > now && Covers(b, ip)
  }

  // ------------------------------------------------------------------ the order of the list

  predicate TextLess(a: string, b: string) {
    b != "" && (a == "" || a[0] < b[0] || (a[0] == b[0] && TextLess(a[1..], b[1..])))
  }

  lemma {:induction false} TextLessTotal(a: string, b: string)
    ensures !(TextLess(a, b) && TextLess(b, a))
    ensures a != b ==> TextLess(a, b) || TextLess(b, a)
  {
    if a != "" && b != "" && a[0] == b[0] {
      TextLessTotal(a[1..], b[1..]);
      if a[1..] == b[1..] { assert a == [a[0]] + a[1..] && b == [b[0]] + b[1..]; }
    }
  }

  lemma {:induction false} TextLessTransitive(a: string, b: string, c: string)
    requires TextLess(a, b) && TextLess(b, c)
    ensures TextLess(a, c)
  {
    if a != "" && b != "" && c != "" && a[0] == b[0] == c[0] { TextLessTransitive(a[1..], b[1..], c[1..]); }
  }

  /** Newest first, then by text. */
  predicate Precedes(a: Block, b: Block) {
    if a.createdAt != b.createdAt then a.createdAt > b.createdAt else TextLess(a.text, b.text)
  }

  lemma {:induction false} PrecedesIsOrder(a: Block, b: Block, c: Block)
    ensures !(Precedes(a, b) && Precedes(b, a))
    ensures !Precedes(b, a) && !Precedes(c, b) ==> !Precedes(c, a)
  {
    TextLessTotal(a.text, b.text);
    TextLessTotal(b.text, c.text);
    TextLessTotal(a.text, c.text);
    if TextLess(a.text, b.text) && TextLess(b.text, c.text) { TextLessTransitive(a.text, b.text, c.text); }
  }

  ghost predicate Ordered(blocks: seq<Block>) {
    forall i, j :: 0 <= i < j < |blocks| ==> !Precedes(blocks[j], blocks[i])
  }

  method InsertInOrder(blocks: seq<Block>, b: Block) returns (r: seq<Block>)
    requires Ordered(blocks)
    ensures Ordered(r) && multiset(r) == multiset(blocks) + multiset{b}
  {
    var i := |blocks|;
    while i > 0 && Precedes(b, blocks[i - 1])
      invariant 0 <= i <= |blocks|
      invariant forall k :: i <= k < |blocks| ==> Precedes(b, blocks[k])
    {
      i := i - 1;
    }
    r := blocks[..i] + [b] + blocks[i..];
    assert blocks == blocks[..i] + blocks[i..];
    forall k | 0 <= k < i ensures !Precedes(b, blocks[k]) {
      PrecedesIsOrder(blocks[k], blocks[i - 1], b);
    }
    forall k | i <= k < |blocks| ensures !Precedes(blocks[k], b) {
      PrecedesIsOrder(b, blocks[k], b);
    }
  }

  /** Any order the standard sort may leave the blocks in is one that this one may. */
  method Sort(blocks: seq<Block>) returns (r: seq<Block>)
    ensures Ordered(r) && multiset(r) == multiset(blocks)
  {
    r := [];
    for i := 0 to |blocks|
      invariant Ordered(r) && multiset(r) == multiset(blocks[..i])
    {
      r := InsertInOrder(r, blocks[i]);
      assert blocks[..i + 1] == blocks[..i] + [blocks[i]];
    }
    assert blocks[..|blocks|] == blocks;
  }

  // ------------------------------------------------------------------ the object

  class Tracker {
    const pruneInterval: int
    var exact: map<Ip, Block>
    var cidrs: seq<Block>
    var lastPrune: int

    ghost function Abs(): State
      reads this
    {
      State(exact, cidrs, lastPrune)
    }

    constructor (interval: int)
      ensures Abs() == State(map[], [], 0) && pruneInterval == interval
    {
      pruneInterval := interval;
      exact := map[];
      cidrs := [];
      lastPrune := 0;
    }

    method PruneExpired(now: int)
      modifies `exact, `cidrs
      ensures Abs() == Prune(old(Abs()), now)
    {
      exact := UnexpiredAddresses(exact, now);
      cidrs := Unexpired(cidrs, now);
    }

    method AddBlock(block: Block, now: int)
      modifies `exact, `cidrs, `lastPrune
      ensures Abs() == Add(old(Abs()), pruneInterval, block, now)
    {
      if now - lastPrune >= pruneInterval {
        PruneExpired(now);
        lastPrune := now;
      }
      if !block.isCidr {
        exact := exact[block.address := block];
        return;
      }
      cidrs := Without(cidrs, block.text);
      cidrs := cidrs + [block];
    }

    method IsBlocked(ip: Ip, now: int) returns (blocked: bool)
      requires Valid(Abs())
      ensures blocked == Blocked(Abs(), ip, now)
    {
      if ip in exact && exact[ip].expiresAt > now {
        assert Filed(exact[ip], ip) && Holds(Abs(), exact[ip]) && Blocks(exact[ip], ip, now);
        return true;
      }
      for i := 0 to |cidrs|
        invariant forall k :: 0 <= k < i ==> !Blocks(cidrs[k], ip, now)
      {
        if cidrs[i].expiresAt > now && NetUtils.AddressInCidr(ip, NetUtils.CidrRange(cidrs[i].address, cidrs[i].prefixLen, cidrs[i].text)) {
          assert Holds(Abs(), cidrs[i]) && Blocks(cidrs[i], ip, now);
          return true;
        }
      }
      return false;
    }

    method ListActive(now: int) returns (result: seq<Block>)
      requires Valid(Abs())
      modifies `exact, `cidrs, `lastPrune
      ensures Abs() == Listed(old(Abs()), now) && Valid(Abs())
      ensures Ordered(result) && Distinct(result)
      ensures forall b :: b in result <==> Holds(old(Abs()), b) && b.expiresAt > now
    {
      PruneKeepsValid(Abs(), now);
      PruneKeepsUnexpired(Abs(), now);
      PruneExpired(now);
      lastPrune := now;
      result := Collect();
      var unsorted := result;
      result := Sort(unsorted);
      SortedIsSame(unsorted, result);
    }

    method Collect() returns (result: seq<Block>)
      requires Valid(Abs())
      ensures Distinct(result)
      ensures forall b :: b in result <==> Holds(Abs(), b)
    {
      result := CollectAddresses();
      ghost var addresses := result;
      for i := 0 to |cidrs|
        invariant result == addresses + cidrs[..i]
        invariant Distinct(result)
      {
        assert cidrs[i] in cidrs;
        result := result + [cidrs[i]];
      }
    }

    method CollectAddresses() returns (result: seq<Block>)
      requires Valid(Abs())
      ensures Distinct(result)
      ensures forall b :: b in result <==> !b.isCidr && Holds(Abs(), b)
    {
      result := [];
      var rest := exact;
      while rest != map[]
        invariant forall a :: a in rest ==> a in exact && rest[a] == exact[a]
        invariant forall b :: b in result <==> !b.isCidr && b.address in exact && exact[b.address] == b && b.address !in rest
        invariant Distinct(result)
        decreases |rest|
      {
        var a :| a in rest;
        assert Filed(exact[a], a);
        result := result + [exact[a]];
        rest := rest - {a};
      }
    }

    method RemoveBlock(parse: string -> Option<Ip>, text: string) returns (removed: bool)
      modifies `exact, `cidrs
      ensures Abs() == Remove(old(Abs()), parse, text)
      ensures removed <==> Abs() != old(Abs())
    {
      var address := parse(text);
      if address.Some? {
        removed := address.value in exact;
        exact := exact - {address.value};
      } else {
        var kept := Without(cidrs, text);
        removed := |kept| < |cidrs|;
        WithoutLength(cidrs, text);
        if !removed { WithoutShortens(cidrs, text); }
        cidrs := kept;
      }
    }
  }

  lemma {:induction false} WithoutLength(blocks: seq<Block>, text: string)
    ensures |Without(blocks, text)| <= |blocks|
  {
    if blocks != [] { WithoutLength(Front(blocks), text); }
  }

  lemma {:induction false} WithoutShortens(blocks: seq<Block>, text: string)
    requires |Without(blocks, text)| == |blocks|
    ensures Without(blocks, text) == blocks
  {
    if blocks != [] {
      WithoutLength(Front(blocks), text);
      WithoutShortens(Front(blocks), text);
      Rejoin(blocks);
    }
  }

  lemma {:induction false} Rejoin<T>(s: seq<T>)
    requires s != []
    ensures Front(s) + [Last(s)] == s
  {
  }

  lemma {:induction false} SortedIsSame(a: seq<Block>, b: seq<Block>)
    requires multiset(a) == multiset(b) && Distinct(a)
    ensures Distinct(b) && forall x :: x in b <==> x in a
  {
    forall x ensures x in b <==> x in a { assert x in multiset(a) <==> x in multiset(b); }
    forall i, j | 0 <= i < j < |b| ensures b[i] != b[j] {
      if b[i] == b[j] {
        TwiceCounted(b, i, j);
        OnceCounted(a, b[i]);
      }
    }
  }

  lemma {:induction false} TwiceCounted(b: seq<Block>, i: nat, j: nat)
    requires i < j < |b| && b[i] == b[j]
    ensures multiset(b)[b[i]] >= 2
  {
    assert b == b[..j] + b[j..];
    assert b[..j][i] == b[i] && b[j..][0] == b[j];
    assert b[i] in multiset(b[..j]) && b[j] in multiset(b[j..]);
  }

  lemma {:induction false} OnceCounted(a: seq<Block>, x: Block)
    requires Distinct(a)
    ensures multiset(a)[x] <= 1
  {
    if a != [] {
      OnceCounted(Front(a), x);
      assert a == Front(a) + [Last(a)];
      if Last(a) == x {
        assert forall i :: 0 <= i < |a| - 1 ==> Front(a)[i] != x;
        assert x !in Front(a);
      }
    }
  }

  // ------------------------------------------------------------------ what every call keeps

  lemma {:induction false} UnexpiredDistinct(blocks: seq<Block>, now: int)
    requires Distinct(blocks)
    ensures Distinct(Unexpired(blocks, now))
  {
    if blocks != [] {
      UnexpiredDistinct(Front(blocks), now);
      LastIsNew(blocks);
    }
  }

  lemma {:induction false} WithoutDistinct(blocks: seq<Block>, text: string)
    requires Distinct(blocks)
    ensures Distinct(Without(blocks, text))
  {
    if blocks != [] {
      WithoutDistinct(Front(blocks), text);
      LastIsNew(blocks);
    }
  }

  lemma {:induction false} LastIsNew(blocks: seq<Block>)
    requires blocks != [] && Distinct(blocks)
    ensures Distinct(Front(blocks)) && Last(blocks) !in Front(blocks)
  {
  }

  lemma {:induction false} PruneKeepsValid(s: State, now: int)
    requires Valid(s)
    ensures Valid(Prune(s, now))
  {
    UnexpiredDistinct(s.cidrs, now);
  }

  lemma {:induction false} PruneKeepsUnexpired(s: State, now: int)
    ensures forall b :: Holds(Prune(s, now), b) <==> Holds(s, b) && b.expiresAt > now
  {
  }

  lemma {:induction false} StoreKeepsValid(s: State, b: Block)
    requires Valid(s)
    ensures Valid(Store(s, b))
    ensures forall x :: Holds(Store(s, b), x) <==> x == b || (Holds(s, x) && KeyOf(x) != KeyOf(b))
  {
    WithoutDistinct(s.cidrs, b.text);
  }

  lemma {:induction false} RemoveKeepsValid(s: State, parse: string -> Option<Ip>, text: string)
    requires Valid(s)
    ensures Valid(Remove(s, parse, text))
    ensures forall x :: Holds(Remove(s, parse, text), x) <==> Holds(s, x) && KeyOf(x) != KeyOfText(parse, text)
  {
    WithoutDistinct(s.cidrs, text);
  }

  // ------------------------------------------------------------------ runs

  /** A block is filed under its address, or under the text of its range. */
  datatype Key = AddressKey(address: Ip) | RangeKey(text: string)

  function KeyOf(b: Block): Key {
    if b.isCidr then RangeKey(b.text) else AddressKey(b.address)
  }

  function KeyOfText(parse: string -> Option<Ip>, text: string): Key {
    match parse(text)
    case Some(address) => AddressKey(address)
    case None => RangeKey(text)
  }

  datatype Op = AddOp(block: Block, now: int) | ListOp(now: int) | RemoveOp(text: string, now: int)

  /** What the calls go by: how often to prune, and how addresses are spelled. */
  datatype Setting = Setting(interval: int, parse: string -> Option<Ip>)

  function Apply(z: Setting, s: State, op: Op): State {
    match op
    case AddOp(block, now) => Add(s, z.interval, block, now)
    case ListOp(now) => Listed(s, now)
    case RemoveOp(text, _) => Remove(s, z.parse, text)
  }

  function Run(z: Setting, ops: seq<Op>): State {
    if ops == [] then State(map[], [], 0) else Apply(z, Run(z, Front(ops)), Last(ops))
  }

  /** The plain map: the last add of a key wins, a remove deletes it, nothing expires. */
  function Current(z: Setting, ops: seq<Op>, key: Key): Option<Block> {
    if ops == [] then None
    else
      match Last(ops)
      case AddOp(block, _) => if KeyOf(block) == key then Some(block) else Current(z, Front(ops), key)
      case ListOp(_) => Current(z, Front(ops), key)
      case RemoveOp(text, _) => if KeyOfText(z.parse, text) == key then None else Current(z, Front(ops), key)
  }

  predicate SteadyClock(ops: seq<Op>, now: int) {
    ops == [] || (Last(ops).now <= now && SteadyClock(Front(ops), Last(ops).now))
  }

  /** The tracker holds nothing but what the plain map has, and lacks only what has expired by `now`. */
  ghost predicate Agrees(z: Setting, s: State, ops: seq<Op>, b: Block, now: int) {
    && (Holds(s, b) ==> Current(z, ops, KeyOf(b)) == Some(b))
    && (Current(z, ops, KeyOf(b)) == Some(b) ==> Holds(s, b) || b.expiresAt <= now)
  }

  lemma {:induction false} CurrentIsFiled(z: Setting, ops: seq<Op>, key: Key)
    ensures Current(z, ops, key).Some? ==> KeyOf(Current(z, ops, key).value) == key
  {
    if ops != [] { CurrentIsFiled(z, Front(ops), key); }
  }

  lemma {:induction false} StepAgrees(z: Setting, s: State, ops: seq<Op>, op: Op, b: Block)
    requires Valid(s) && Agrees(z, s, ops, b, op.now)
    ensures Valid(Apply(z, s, op)) && Agrees(z, Apply(z, s, op), ops + [op], b, op.now)
  {
    assert Front(ops + [op]) == ops;
    match op
    case AddOp(block, now) => AddAgrees(z, s, ops, block, now, b);
    case ListOp(now) =>
      PruneKeepsUnexpired(s, now);
      PruneKeepsValid(s, now);
    case RemoveOp(text, _) => RemoveKeepsValid(s, z.parse, text);
  }

  lemma {:induction false} AddAgrees(z: Setting, s: State, ops: seq<Op>, block: Block, now: int, b: Block)
    requires Valid(s) && Agrees(z, s, ops, b, now)
    ensures var t := Add(s, z.interval, block, now);
            Valid(t) && Agrees(z, t, ops + [AddOp(block, now)], b, now)
  {
    assert Front(ops + [AddOp(block, now)]) == ops;
    var pruned := if now - s.lastPrune >= z.interval then Prune(s, now).(lastPrune := now) else s;
    PruneKeepsUnexpired(s, now);
    PruneKeepsValid(s, now);
    assert Holds(pruned, b) ==> Holds(s, b);
    assert Holds(s, b) ==> Holds(pruned, b) || b.expiresAt <= now;
    StoreKeepsValid(pruned, block);
    assert Holds(Store(pruned, block), b) <==> b == block || (Holds(pruned, b) && KeyOf(b) != KeyOf(block));
  }

  lemma {:induction false} RunAgrees(z: Setting, ops: seq<Op>, b: Block, now: int)
    requires SteadyClock(ops, now)
    ensures Valid(Run(z, ops)) && Agrees(z, Run(z, ops), ops, b, now)
  {
    if ops != [] {
      RunAgrees(z, Front(ops), b, Last(ops).now);
      StepAgrees(z, Run(z, Front(ops)), Front(ops), Last(ops), b);
      assert Front(ops) + [Last(ops)] == ops;
    }
  }

  /** Some entry of the plain map that has not expired covers the address. */
  ghost predicate PlainlyBlocked(z: Setting, ops: seq<Op>, ip: Ip, now: int) {
    exists key :: Current(z, ops, key).Some? && Blocks(Current(z, ops, key).value, ip, now)
  }

  /** When pruning happens, or how often, cannot be seen by asking whether an address is blocked. */
  lemma {:induction false} PruningIsInvisible(z: Setting, ops: seq<Op>, ip: Ip, now: int)
    requires SteadyClock(ops, now)
    ensures Blocked(Run(z, ops), ip, now) <==> PlainlyBlocked(z, ops, ip, now)
  {
    var s := Run(z, ops);
    if Blocked(s, ip, now) {
      var b: Block :| Holds(s, b) && Blocks(b, ip, now);
      RunAgrees(z, ops, b, now);
      assert Current(z, ops, KeyOf(b)) == Some(b);
    }
    if PlainlyBlocked(z, ops, ip, now) {
      var key :| Current(z, ops, key).Some? && Blocks(Current(z, ops, key).value, ip, now);
      var b := Current(z, ops, key).value;
      CurrentIsFiled(z, ops, key);
      RunAgrees(z, ops, b, now);
      assert Holds(s, b);
    }
  }

  /** The blocks that `ListActive` shows are the unexpired entries of the plain map. */
  lemma {:induction false} ListShowsThePlainMap(z: Setting, ops: seq<Op>, b: Block, now: int)
    requires SteadyClock(ops, now)
    ensures Valid(Run(z, ops))
    ensures Holds(Run(z, ops), b) && b.expiresAt > now <==> Current(z, ops, KeyOf(b)) == Some(b) && b.expiresAt > now
  {
    RunAgrees(z, ops, b, now);
  }

  // ------------------------------------------------------------------ what a removal answers

  /** When the last prune took place. */
  function LastPrune(z: Setting, ops: seq<Op>): int {
    if ops == [] then 0
    else
      match Last(ops)
      case AddOp(_, now) => if now - LastPrune(z, Front(ops)) >= z.interval then now else LastPrune(z, Front(ops))
      case ListOp(now) => now
      case RemoveOp(_, _) => LastPrune(z, Front(ops))
  }

  predicate PrunesAt(z: Setting, ops: seq<Op>, op: Op) {
    op.ListOp? || (op.AddOp? && op.now - LastPrune(z, ops) >= z.interval)
  }

  /** Since the plain map's entry of that key was added, a prune came at its expiry or later. */
  predicate Swept(z: Setting, ops: seq<Op>, key: Key) {
    ops != []
    && var before, op := Front(ops), Last(ops);
       && !(op.AddOp? && KeyOf(op.block) == key)
       && !(op.RemoveOp? && KeyOfText(z.parse, op.text) == key)
       && (Swept(z, before, key)
           || (PrunesAt(z, before, op) && Current(z, before, key).Some? && Current(z, before, key).value.expiresAt <= op.now))
  }

  ghost predicate HeldExactly(z: Setting, s: State, ops: seq<Op>, b: Block) {
    Holds(s, b) <==> Current(z, ops, KeyOf(b)) == Some(b) && !Swept(z, ops, KeyOf(b))
  }

  /** Whatever the clock does, the tracker lacks exactly the entries that were swept. */
  lemma {:induction false} SweptIsMissing(z: Setting, ops: seq<Op>, b: Block)
    ensures Valid(Run(z, ops)) && Run(z, ops).lastPrune == LastPrune(z, ops) && HeldExactly(z, Run(z, ops), ops, b)
  {
    if ops != [] {
      SweptIsMissing(z, Front(ops), b);
      SweptStep(z, Run(z, Front(ops)), Front(ops), Last(ops), b);
      assert Front(ops) + [Last(ops)] == ops;
    }
  }

  lemma {:induction false} SweptStep(z: Setting, s: State, ops: seq<Op>, op: Op, b: Block)
    requires Valid(s) && s.lastPrune == LastPrune(z, ops) && HeldExactly(z, s, ops, b)
    ensures var t := Apply(z, s, op);
            Valid(t) && t.lastPrune == LastPrune(z, ops + [op]) && HeldExactly(z, t, ops + [op], b)
  {
    match op
    case AddOp(block, now) => SweptAdd(z, s, ops, block, now, b);
    case ListOp(now) => SweptList(z, s, ops, now, b);
    case RemoveOp(text, now) => SweptRemove(z, s, ops, text, now, b);
  }

  lemma {:induction false} SweptAdd(z: Setting, s: State, ops: seq<Op>, block: Block, now: int, b: Block)
    requires Valid(s) && s.lastPrune == LastPrune(z, ops) && HeldExactly(z, s, ops, b)
    ensures var t, more := Add(s, z.interval, block, now), ops + [AddOp(block, now)];
            Valid(t) && t.lastPrune == LastPrune(z, more) && HeldExactly(z, t, more, b)
  {
    assert Front(ops + [AddOp(block, now)]) == ops;
    AddHolds(s, z.interval, block, now, b);
  }

  lemma {:induction false} AddHolds(s: State, interval: int, block: Block, now: int, b: Block)
    requires Valid(s)
    ensures var t, prunes := Add(s, interval, block, now), now - s.lastPrune >= interval;
            && Valid(t) && t.lastPrune == (if prunes then now else s.lastPrune)
            && (Holds(t, b) <==> b == block || (Holds(s, b) && KeyOf(b) != KeyOf(block) && (prunes ==> b.expiresAt > now)))
  {
    var pruned := if now - s.lastPrune >= interval then Prune(s, now).(lastPrune := now) else s;
    PruneKeepsUnexpired(s, now);
    PruneKeepsValid(s, now);
    assert Holds(Prune(s, now), b) <==> Holds(s, b) && b.expiresAt > now;
    StoreKeepsValid(pruned, block);
    assert Holds(Store(pruned, block), b) <==> b == block || (Holds(pruned, b) && KeyOf(b) != KeyOf(block));
  }

  lemma {:induction false} SweptList(z: Setting, s: State, ops: seq<Op>, now: int, b: Block)
    requires Valid(s) && HeldExactly(z, s, ops, b)
    ensures var t, more := Listed(s, now), ops + [ListOp(now)];
            Valid(t) && t.lastPrune == LastPrune(z, more) && HeldExactly(z, t, more, b)
  {
    assert Front(ops + [ListOp(now)]) == ops;
    PruneKeepsUnexpired(s, now);
    PruneKeepsValid(s, now);
    assert Holds(Prune(s, now), b) <==> Holds(s, b) && b.expiresAt > now;
  }

  lemma {:induction false} SweptRemove(z: Setting, s: State, ops: seq<Op>, text: string, now: int, b: Block)
    requires Valid(s) && s.lastPrune == LastPrune(z, ops) && HeldExactly(z, s, ops, b)
    ensures var t, more := Remove(s, z.parse, text), ops + [RemoveOp(text, now)];
            Valid(t) && t.lastPrune == LastPrune(z, more) && HeldExactly(z, t, more, b)
  {
    assert Front(ops + [RemoveOp(text, now)]) == ops;
    RemoveKeepsValid(s, z.parse, text);
    assert Holds(Remove(s, z.parse, text), b) <==> Holds(s, b) && KeyOf(b) != KeyOfText(z.parse, text);
  }

  lemma {:induction false} RemovesSomething(s: State, parse: string -> Option<Ip>, text: string)
    requires Valid(s)
    ensures Remove(s, parse, text) != s <==> exists b: Block :: Holds(s, b) && KeyOf(b) == KeyOfText(parse, text)
  {
    RemoveKeepsValid(s, parse, text);
    var t := Remove(s, parse, text);
    if b: Block :| Holds(s, b) && KeyOf(b) == KeyOfText(parse, text) {
      assert !Holds(t, b);
    } else {
      match parse(text)
      case Some(address) =>
        if address in s.exact {
          assert Filed(s.exact[address], address);
          assert Holds(s, s.exact[address]);
        }
        assert s.exact - {address} == s.exact;
      case None =>
        forall b: Block | b in s.cidrs ensures b.text != text { assert Holds(s, b); }
        WithoutNothing(s.cidrs, text);
    }
  }

  lemma {:induction false} WithoutNothing(blocks: seq<Block>, text: string)
    requires forall b :: b in blocks ==> b.text != text
    ensures Without(blocks, text) == blocks
  {
    if blocks != [] {
      WithoutNothing(Front(blocks), text);
      Rejoin(blocks);
    }
  }

  /**
   A removal answers as the plain map would if and only if the entry was not swept; with a clock that does not step
   back, an entry that has not expired was not.
   */
  lemma {:induction false} RemoveAnswersExactly(z: Setting, ops: seq<Op>, text: string, now: int)
    ensures var key, s := KeyOfText(z.parse, text), Run(z, ops);
            && (Remove(s, z.parse, text) != s <==> Current(z, ops, key).Some? && !Swept(z, ops, key))
            && (SteadyClock(ops, now) && Current(z, ops, key).Some? && Current(z, ops, key).value.expiresAt > now ==> !Swept(z, ops, key))
  {
    var key, s := KeyOfText(z.parse, text), Run(z, ops);
    SweptIsMissing(z, ops, Entry("", false, NetUtils.V4([0, 0, 0, 0]), 0, "", 0, 0, 0));
    RemovesSomething(s, z.parse, text);
    if b: Block :| Holds(s, b) && KeyOf(b) == key {
      SweptIsMissing(z, ops, b);
    }
    if Current(z, ops, key).Some? {
      CurrentIsFiled(z, ops, key);
      SweptIsMissing(z, ops, Current(z, ops, key).value);
      if SteadyClock(ops, now) && Current(z, ops, key).value.expiresAt > now { NotYetSwept(z, ops, key, now); }
    }
  }

  lemma {:induction false} NotYetSwept(z: Setting, ops: seq<Op>, key: Key, now: int)
    requires SteadyClock(ops, now) && Current(z, ops, key).Some? && Current(z, ops, key).value.expiresAt > now
    ensures !Swept(z, ops, key)
  {
    if Swept(z, ops, key) && Swept(z, Front(ops), key) {
      NotYetSwept(z, Front(ops), key, Last(ops).now);
    }
  }

  /** The two do differ: a removal says false for an expired block once that was pruned. */
  lemma {:induction false} RemoveSeesPruning(z: Setting, b: Block, ip: Ip, now: int)
    requires z.interval > now > 0 && !b.isCidr && b.address == ip && b.expiresAt <= now && z.parse(b.text) == Some(ip)
    ensures var ops := [AddOp(b, 0)]; var s := Run(z, ops); var t := Run(z, ops + [ListOp(now)]);
            Remove(s, z.parse, b.text) != s && Remove(t, z.parse, b.text) == t
  {
    var ops := [AddOp(b, 0)];
    assert Front(ops) == [];
    assert Front(ops + [ListOp(now)]) == ops;
    assert Run(z, []) == State(map[], [], 0);
    var s := Run(z, ops);
    assert s == Apply(z, Run(z, []), AddOp(b, 0));
    assert s.exact == map[ip := b];
    assert ip in s.exact && ip !in Remove(s, z.parse, b.text).exact;
    var t := Run(z, ops + [ListOp(now)]);
    assert t.exact == map[];
    assert t.exact - {ip} == t.exact;
  }

  // ------------------------------------------------------------------ what the answers mean

  /** The block has not expired and is this address, or a range of its family whose leading bits it shares. */
  ghost predicate Hits(b: Block, ip: Ip, now: int) {
    && b.expiresAt > now
    && if !b.isCidr then b.address == ip
       else NetUtils.AddressInCidr(ip, NetUtils.CidrRange(b.address, b.prefixLen, b.text))
  }

  /** An address is blocked exactly if the block filed under it has not expired or an unexpired range covers it. */
  lemma {:induction false} BlockedExactly(s: State, ip: Ip, now: int)
    requires Valid(s)
    ensures Blocked(s, ip, now)
       <==> (ip in s.exact && s.exact[ip].expiresAt > now) || exists b: Block :: b in s.cidrs && Hits(b, ip, now)
  {
    if b: Block :| Holds(s, b) && Blocks(b, ip, now) { assert Hits(b, ip, now); }
    if ip in s.exact && s.exact[ip].expiresAt > now {
      assert Filed(s.exact[ip], ip);
      assert Holds(s, s.exact[ip]) && Blocks(s.exact[ip], ip, now);
    }
    if b: Block :| b in s.cidrs && Hits(b, ip, now) { assert Holds(s, b) && Blocks(b, ip, now); }
  }

  /** `a` comes first in the dictionary: it is the beginning of `b`, or smaller where the two first differ. */
  ghost predicate Alphabetical(a: string, b: string) {
    a <= b || exists k :: 0 <= k < |a| && k < |b| && a[..k] == b[..k] && a[k] < b[k]
  }

  lemma {:induction false} NotLessIsAlphabetical(a: string, b: string)
    requires !TextLess(b, a)
    ensures Alphabetical(a, b)
  {
    if a != "" && b != "" && a[0] == b[0] {
      NotLessIsAlphabetical(a[1..], b[1..]);
      assert a == [a[0]] + a[1..] && b == [b[0]] + b[1..];
      if !(a[1..] <= b[1..]) {
        var k :| 0 <= k < |a[1..]| && k < |b[1..]| && a[1..][..k] == b[1..][..k] && a[1..][k] < b[1..][k];
        assert a[..k + 1] == [a[0]] + a[1..][..k] && b[..k + 1] == [b[0]] + b[1..][..k];
        assert a[k + 1] < b[k + 1];
      }
    } else if a != "" && b != "" {
      assert a[..0] == b[..0];
    }
  }

  /** The list goes from the newest block to the oldest, and alphabetically among blocks of one moment. */
  lemma {:induction false} ListedNewestFirst(blocks: seq<Block>, i: nat, j: nat)
    requires Ordered(blocks) && i < j < |blocks|
    ensures blocks[i].createdAt >= blocks[j].createdAt
    ensures blocks[i].createdAt == blocks[j].createdAt ==> Alphabetical(blocks[i].text, blocks[j].text)
  {
    if blocks[i].createdAt == blocks[j].createdAt { NotLessIsAlphabetical(blocks[i].text, blocks[j].text); }
  }
}
