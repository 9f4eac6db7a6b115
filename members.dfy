/** A faction's members as GET /api/factions/:id returns them and the faction
    view orders them: player ids trimmed in place, the XP total, the owner
    added when the membership table does not list them, and the
    leaders-first, most-XP-first order of the member list. */
module Members {
  import opened Text
  import opened JsValues

  /** A member row: `PlayerId`, `IsLeader` and `XPDonated`. */
  datatype Member = Member(playerId: JsValue, isLeader: JsValue, xpDonated: JsValue)

  predicate Nullish(v: JsValue) {
    v.Null? || v.Undefined?
  }

  // ---------------------------------------------------------------------------
  // Player ids

  /** A present player id becomes its text without surrounding whitespace;
      `null` and `undefined` are left alone (server.js:265-286). The text kept
      is the piece of the id's text between a whitespace prefix and a
      whitespace suffix, and it neither starts nor ends with whitespace. */
  function NormalizeId(v: JsValue): (r: JsValue)
    ensures Nullish(v) ==> r == v
    ensures !Nullish(v) ==> r.Str? && Trimmed(r.s)
    ensures !Nullish(v) ==>
              var t, i := ToText(v), LeadingSpaces(ToText(v));
              && i + |r.s| <= |t| && r.s == t[i..i + |r.s|]
              && AllSpace(t[..i]) && AllSpace(t[i + |r.s|..])
  {
    if Nullish(v) then v
    else
      var t := ToText(v);
      TrimClean(t);
      TrimSlice(t);
      LeadingSpacesAreSpace(t);
      TrimDropsTrailing(t);
      Str(Trim(t))
  }

  function Normalized(m: Member): Member {
    m.(playerId := NormalizeId(m.playerId))
  }

  /** Every present player id is a string with no surrounding whitespace. */
  predicate IdsNormalized(ms: seq<Member>) {
    forall i :: 0 <= i < |ms| ==> Nullish(ms[i].playerId) || (ms[i].playerId.Str? && Trimmed(ms[i].playerId.s))
  }

  /** Normalising twice is normalising once. */
  lemma NormalizeIdIdempotent(v: JsValue)
    ensures NormalizeId(NormalizeId(v)) == NormalizeId(v)
  {
    if !Nullish(v) {
      TrimIdempotent(ToText(v));
    }
  }

  /** The `members.forEach` of server.js:265-286: each row's present
      `PlayerId` is replaced, in place, by its trimmed text. */
  method NormalizeMemberIds(members: array<Member>)
    modifies members
    ensures forall i :: 0 <= i < members.Length ==> members[i] == Normalized(old(members[i]))
    ensures IdsNormalized(members[..])
  {
    var i := 0;
    while i < members.Length
      invariant 0 <= i <= members.Length
      invariant forall k :: 0 <= k < i ==> members[k] == Normalized(old(members[k]))
      invariant forall k :: i <= k < members.Length ==> members[k] == old(members[k])
    {
      var m := members[i];
      if !Nullish(m.playerId) {
        var playerId := m.playerId;
        if playerId.Str? {
          playerId := Str(Trim(playerId.s));
        } else {
          playerId := Str(Trim(ToText(playerId)));
        }
        members[i] := m.(playerId := playerId);
      }
      i := i + 1;
    }
  }

  // ---------------------------------------------------------------------------
  // XP total

  /** `parseInt(m.XPDonated) || 0`. */
  function Xp(m: Member): int {
    ParseIntOr(m.xpDonated, 0)
  }

  /** `members.reduce((sum, m) => sum + (parseInt(m.XPDonated) || 0), 0)`
      (server.js:292). */
  function TotalXp(ms: seq<Member>): int {
    if ms == [] then 0 else TotalXp(ms[..|ms| - 1]) + Xp(ms[|ms| - 1])
  }

  /** The total over two lists of members is the sum of their totals. */
  lemma {:induction false} TotalXpAppend(a: seq<Member>, b: seq<Member>)
    ensures TotalXp(a + b) == TotalXp(a) + TotalXp(b)
    decreases |b|
  {
    if b != [] {
      var b' := b[..|b| - 1];
      TotalXpAppend(a, b');
      assert (a + b)[..|a + b| - 1] == a + b';
    } else {
      assert a + b == a;
    }
  }

  /** A member whose XP cannot be read counts as zero. */
  lemma UnreadableXpCountsZero(ms: seq<Member>, m: Member)
    requires ParseInt(m.xpDonated).None?
    ensures TotalXp(ms + [m]) == TotalXp(ms)
  {
    assert (ms + [m])[..|ms|] == ms;
  }

  // ---------------------------------------------------------------------------
  // The owner

  /** `a == b` between two player ids, read as equality of their trimmed
      texts; `null` and `undefined` equal each other and nothing else. */
  predicate SameId(a: JsValue, b: JsValue) {
    if Nullish(a) || Nullish(b) then Nullish(a) && Nullish(b)
    else Trim(ToText(a)) == Trim(ToText(b))
  }

  /** `members.find(m => m.PlayerId == faction.OwnerId)` as an index. */
  function FindOwner(ms: seq<Member>, ownerId: JsValue): (r: Option<nat>)
    ensures r.Some? ==> r.value < |ms| && SameId(ms[r.value].playerId, ownerId)
                        && forall j :: 0 <= j < r.value ==> !SameId(ms[j].playerId, ownerId)
    ensures r.None? ==> forall j :: 0 <= j < |ms| ==> !SameId(ms[j].playerId, ownerId)
  {
    if ms == [] then None
    else if SameId(ms[0].playerId, ownerId) then Some(0)
    else
      match FindOwner(ms[1..], ownerId)
      case None => None
      case Some(i) => Some(i + 1)
  }

  /** The row added for an owner the membership table does not list. */
  function OwnerRow(ownerId: JsValue): Member {
    Member(ownerId, Num(1), Num(0))
  }

  /** The member list answered: the owner's row first when the owner is set
      and not found (server.js:295-303). */
  function WithOwner(ms: seq<Member>, ownerId: JsValue): seq<Member> {
    if FindOwner(ms, ownerId).None? && Truthy(ownerId) then [OwnerRow(ownerId)] + ms else ms
  }

  /** After the owner step: a set owner is always listed, as a leader when
      added; the rows read are kept, in order, after it; and the added row
      changes neither the XP total nor the count taken before it. */
  lemma WithOwnerSpec(ms: seq<Member>, ownerId: JsValue)
    ensures var r := WithOwner(ms, ownerId);
            && (Truthy(ownerId) ==> exists i :: 0 <= i < |r| && SameId(r[i].playerId, ownerId))
            && |r| - |ms| == (if FindOwner(ms, ownerId).None? && Truthy(ownerId) then 1 else 0)
            && r[|r| - |ms|..] == ms
            && (|r| > |ms| ==> r[0] == OwnerRow(ownerId) && Truthy(r[0].isLeader) && Xp(r[0]) == 0)
            && TotalXp(r) == TotalXp(ms)
  {
    var r := WithOwner(ms, ownerId);
    if FindOwner(ms, ownerId).None? && Truthy(ownerId) {
      assert SameId(r[0].playerId, ownerId);
      TotalXpAppend([OwnerRow(ownerId)], ms);
      assert TotalXp([OwnerRow(ownerId)]) == 0 by {
        assert [OwnerRow(ownerId)][..0] == [];
      }
    }
  }

  /** The member summary of GET /api/factions/:id (server.js:265-316). */
  datatype Summary = Summary(members: seq<Member>, memberCount: nat, totalXp: int, owner: Option<Member>)

  /** Normalises the ids in place, counts and totals the rows read, then finds
      or adds the owner. */
  method SummarizeMembers(members: array<Member>, ownerId: JsValue) returns (s: Summary)
    modifies members
    ensures forall i :: 0 <= i < members.Length ==> members[i] == Normalized(old(members[i]))
    ensures s.memberCount == members.Length
    ensures s.totalXp == TotalXp(members[..])
    ensures s.members == WithOwner(members[..], ownerId)
    ensures s.owner == match FindOwner(members[..], ownerId)
                       case Some(i) => Some(members[i])
                       case None => if Truthy(ownerId) then Some(OwnerRow(ownerId)) else None
  {
    NormalizeMemberIds(members);
    var rows := members[..];
    var memberCount := members.Length;
    var totalXp := TotalXp(rows);
    var found := FindOwner(rows, ownerId);
    var list := rows;
    if found.None? && Truthy(ownerId) {
      list := [OwnerRow(ownerId)] + list;
    }
    var owner := match found
                 case Some(i) => Some(rows[i])
                 case None => if Truthy(ownerId) then Some(OwnerRow(ownerId)) else None;
    s := Summary(list, memberCount, totalXp, owner);
  }

  // ---------------------------------------------------------------------------
  // Member order in the faction view

  /** `m.IsLeader || m.PlayerId == faction.OwnerId` (public/app.js:471). */
  predicate Leads(m: Member, ownerId: JsValue) {
    Truthy(m.isLeader) || SameId(m.playerId, ownerId)
  }

  /** The comparator of public/app.js:470-474. */
  function Compare(a: Member, b: Member, ownerId: JsValue): int {
    if Leads(a, ownerId) && !Leads(b, ownerId) then -1
    else if !Leads(a, ownerId) && Leads(b, ownerId) then 1
    else Xp(b) - Xp(a)
  }

  /** `a` may come before `b`: leaders before non-leaders, and within each
      group more XP first. */
  predicate InOrder(a: Member, b: Member, ownerId: JsValue) {
    (Leads(a, ownerId) && !Leads(b, ownerId))
    || (Leads(a, ownerId) == Leads(b, ownerId) && Xp(a) >= Xp(b))
  }

  /** The comparator is consistent: it puts `a` first exactly when InOrder
      allows it, and swapping its arguments negates it. */
  lemma CompareMeansInOrder(a: Member, b: Member, ownerId: JsValue)
    ensures Compare(a, b, ownerId) <= 0 <==> InOrder(a, b, ownerId)
    ensures Compare(a, b, ownerId) == -Compare(b, a, ownerId)
  {
  }

  predicate Sorted(ms: seq<Member>, ownerId: JsValue) {
    forall i, j :: 0 <= i < j < |ms| ==> InOrder(ms[i], ms[j], ownerId)
  }

  /** Any two members can be ordered one way or the other. */
  lemma InOrderTotal(a: Member, b: Member, ownerId: JsValue)
    ensures InOrder(a, b, ownerId) || InOrder(b, a, ownerId)
  {
  }

  /** A member that may precede every member of an ordered list may head it. */
  lemma SortedCons(x: Member, ms: seq<Member>, ownerId: JsValue)
    requires Sorted(ms, ownerId)
    requires forall j :: 0 <= j < |ms| ==> InOrder(x, ms[j], ownerId)
    ensures Sorted([x] + ms, ownerId)
  {
    var r := [x] + ms;
    forall i, j | 0 <= i < j < |r| ensures InOrder(r[i], r[j], ownerId) {
      if i > 0 {
        assert r[i] == ms[i - 1] && r[j] == ms[j - 1];
      } else {
        assert r[j] == ms[j - 1];
      }
    }
  }

  /** The head of an ordered list may precede each of its elements. */
  lemma HeadFirst(ms: seq<Member>, ownerId: JsValue, x: Member)
    requires Sorted(ms, ownerId) && |ms| > 0 && x in ms[1..]
    ensures InOrder(ms[0], x, ownerId)
  {
    var k :| 0 <= k < |ms[1..]| && ms[1..][k] == x;
    assert ms[k + 1] == x;
  }

  /** Places `m` into an ordered list after every member it may not precede. */
  function Insert(m: Member, ms: seq<Member>, ownerId: JsValue): (r: seq<Member>)
    requires Sorted(ms, ownerId)
    ensures Sorted(r, ownerId)
    ensures multiset(r) == multiset(ms) + multiset{m}
    decreases |ms|
  {
    if ms == [] || InOrder(m, ms[0], ownerId) then
      InsertFront(m, ms, ownerId);
      [m] + ms
    else
      var rest := Insert(m, ms[1..], ownerId);
      InsertBehind(m, ms, rest, ownerId);
      [ms[0]] + rest
  }

  lemma InsertFront(m: Member, ms: seq<Member>, ownerId: JsValue)
    requires Sorted(ms, ownerId)
    requires ms == [] || InOrder(m, ms[0], ownerId)
    ensures Sorted([m] + ms, ownerId)
    ensures multiset([m] + ms) == multiset(ms) + multiset{m}
  {
    if ms != [] {
      forall j | 0 <= j < |ms| ensures InOrder(m, ms[j], ownerId) {
        if j > 0 {
          InOrderTrans(m, ms[0], ms[j], ownerId);
        }
      }
    }
    SortedCons(m, ms, ownerId);
  }

  lemma InsertBehind(m: Member, ms: seq<Member>, rest: seq<Member>, ownerId: JsValue)
    requires Sorted(ms, ownerId) && ms != [] && !InOrder(m, ms[0], ownerId)
    requires Sorted(rest, ownerId) && multiset(rest) == multiset(ms[1..]) + multiset{m}
    ensures Sorted([ms[0]] + rest, ownerId)
    ensures multiset([ms[0]] + rest) == multiset(ms) + multiset{m}
  {
    InOrderTotal(m, ms[0], ownerId);
    forall j | 0 <= j < |rest| ensures InOrder(ms[0], rest[j], ownerId) {
      assert rest[j] in multiset(rest);
      if rest[j] != m {
        HeadFirst(ms, ownerId, rest[j]);
      }
    }
    SortedCons(ms[0], rest, ownerId);
    assert ms == [ms[0]] + ms[1..];
  }

  lemma InOrderTrans(a: Member, b: Member, c: Member, ownerId: JsValue)
    requires InOrder(a, b, ownerId) && InOrder(b, c, ownerId)
    ensures InOrder(a, c, ownerId)
  {
  }

  /** The member list as the faction view shows it: `[...members].sort(cmp)`. */
  function SortMembers(ms: seq<Member>, ownerId: JsValue): (r: seq<Member>)
    ensures Sorted(r, ownerId)
    ensures multiset(r) == multiset(ms)
    decreases |ms|
  {
    if ms == [] then []
    else
      assert ms == [ms[0]] + ms[1..];
      Insert(ms[0], SortMembers(ms[1..], ownerId), ownerId)
  }

  /** In the sorted list every leader comes before every non-leader, and
      within each group XP never increases. */
  lemma SortedMeansLeadersFirst(ms: seq<Member>, ownerId: JsValue)
    requires Sorted(ms, ownerId)
    ensures forall i, j :: 0 <= i < j < |ms| && Leads(ms[j], ownerId) ==> Leads(ms[i], ownerId)
    ensures forall i, j :: 0 <= i < j < |ms| && Leads(ms[i], ownerId) == Leads(ms[j], ownerId) ==>
              Xp(ms[i]) >= Xp(ms[j])
  {
  }

  // ---------------------------------------------------------------------------
  // Stability

  /** What the comparator looks at: whether the member leads, and its XP. */
  datatype SortKey = SortKey(leads: bool, xp: int)

  function KeyOf(m: Member, ownerId: JsValue): SortKey {
    SortKey(Leads(m, ownerId), Xp(m))
  }

  /** The members with sort key `k`, in their order in `ms`. */
  function WithKey(ms: seq<Member>, ownerId: JsValue, k: SortKey): seq<Member> {
    if ms == [] then []
    else (if KeyOf(ms[0], ownerId) == k then [ms[0]] else []) + WithKey(ms[1..], ownerId, k)
  }

  lemma WithKeyCons(x: Member, ms: seq<Member>, ownerId: JsValue, k: SortKey)
    ensures WithKey([x] + ms, ownerId, k) == (if KeyOf(x, ownerId) == k then [x] else []) + WithKey(ms, ownerId, k)
  {
    assert ([x] + ms)[0] == x && ([x] + ms)[1..] == ms;
  }

  /** Insert puts a member before the members it ties with. */
  lemma {:induction false} InsertKeepsTies(m: Member, ms: seq<Member>, ownerId: JsValue, k: SortKey)
    requires Sorted(ms, ownerId)
    ensures WithKey(Insert(m, ms, ownerId), ownerId, k) ==
              (if KeyOf(m, ownerId) == k then [m] else []) + WithKey(ms, ownerId, k)
    decreases |ms|
  {
    if ms == [] || InOrder(m, ms[0], ownerId) {
      WithKeyCons(m, ms, ownerId, k);
    } else {
      var rest := Insert(m, ms[1..], ownerId);
      assert Sorted(ms[1..], ownerId);
      InsertKeepsTies(m, ms[1..], ownerId, k);
      WithKeyCons(ms[0], rest, ownerId, k);
      WithKeyCons(ms[0], ms[1..], ownerId, k);
      assert ms == [ms[0]] + ms[1..];
      assert KeyOf(m, ownerId) != KeyOf(ms[0], ownerId);
    }
  }

  /** The sort is stable: members that tie keep their relative order. */
  lemma {:induction false} SortMembersStable(ms: seq<Member>, ownerId: JsValue, k: SortKey)
    ensures WithKey(SortMembers(ms, ownerId), ownerId, k) == WithKey(ms, ownerId, k)
    decreases |ms|
  {
    if ms != [] {
      SortMembersStable(ms[1..], ownerId, k);
      InsertKeepsTies(ms[0], SortMembers(ms[1..], ownerId), ownerId, k);
      WithKeyCons(ms[0], ms[1..], ownerId, k);
      assert ms == [ms[0]] + ms[1..];
    }
  }
}
