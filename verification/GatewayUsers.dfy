/** Paging through AI Gateway users: usage totals and the lookup of one user.
    Source: internal/mcp/ai_gateway_tools.go. */
module GatewayUsers {
  import opened Wrappers
  import opened Text

  datatype User = User(id: string, todayTokens: int, totalTokens: int, todayImages: int, totalImages: int)

  datatype Usage = Usage(userCount: nat, todayTokens: int, totalTokens: int, todayImages: int, totalImages: int)

  datatype GatewayError = CallFailed | MissingUserId | UserNotFound

  /** The page size the loops ask for, also the stride of their offset. */
  const LIMIT: nat := 100

  // ---------------------------------------------------------------------------
  // The server

  /** A server that never returns more than `cap` users per call. */
  function Page(users: seq<User>, cap: nat, offset: nat): (page: seq<User>)
    ensures offset + |page| <= |users| || page == []
  {
    var size := if cap < LIMIT then cap else LIMIT;
    if offset >= |users| then []
    else if offset + size <= |users| then users[offset..offset + size]
    else users[offset..]
  }

  predicate LastPage(users: seq<User>, cap: nat, offset: nat) {
    var page := Page(users, cap, offset);
    page == [] || offset + |page| >= |users|
  }

  /** The users seen by a loop that starts at an offset. */
  function Visited(users: seq<User>, cap: nat, offset: nat): seq<User>
    decreases |users| - offset
  {
    Page(users, cap, offset) +
    if LastPage(users, cap, offset) then [] else Visited(users, cap, offset + LIMIT)
  }

  function Calls(users: seq<User>, cap: nat, offset: nat): nat
    decreases |users| - offset
  {
    1 + if LastPage(users, cap, offset) then 0 else Calls(users, cap, offset + LIMIT)
  }

  // ---------------------------------------------------------------------------
  // Usage

  function Add(u: Usage, user: User): Usage {
    u.(todayTokens := u.todayTokens + user.todayTokens, totalTokens := u.totalTokens + user.totalTokens,
       todayImages := u.todayImages + user.todayImages, totalImages := u.totalImages + user.totalImages)
  }

  function AddAll(u: Usage, users: seq<User>): Usage {
    if users == [] then u else Add(AddAll(u, users[..|users| - 1]), users[|users| - 1])
  }

  function Totals(count: nat, users: seq<User>): Usage {
    AddAll(Usage(count, 0, 0, 0, 0), users)
  }

  lemma {:induction false} AddAllConcat(u: Usage, a: seq<User>, b: seq<User>)
    ensures AddAll(AddAll(u, a), b) == AddAll(u, a + b)
  {
    if b == [] {
      assert a + b == a;
    } else {
      assert (a + b)[..|a + b| - 1] == a + b[..|b| - 1];
      AddAllConcat(u, a, b[..|b| - 1]);
    }
  }

  lemma PageStep(u: Usage, users: seq<User>, cap: nat, offset: nat)
    ensures AddAll(u, Visited(users, cap, offset)) ==
      if LastPage(users, cap, offset) then AddAll(u, Page(users, cap, offset))
      else AddAll(AddAll(u, Page(users, cap, offset)), Visited(users, cap, offset + LIMIT))
  {
    var page := Page(users, cap, offset);
    if LastPage(users, cap, offset) {
      assert page + [] == page;
    } else {
      AddAllConcat(u, page, Visited(users, cap, offset + LIMIT));
    }
  }

  /** The sum of one figure over all users. */
  function Sum(users: seq<User>, figure: User -> int): int {
    if users == [] then 0 else figure(users[0]) + Sum(users[1..], figure)
  }

  lemma {:induction false} SumSnoc(users: seq<User>, user: User, figure: User -> int)
    ensures Sum(users + [user], figure) == Sum(users, figure) + figure(user)
  {
    if users == [] {
      assert users + [user] == [user] && [user][1..] == [];
    } else {
      assert (users + [user])[1..] == users[1..] + [user];
      SumSnoc(users[1..], user, figure);
    }
  }

  /** Each total is the sum of its own figure over the users. */
  lemma {:induction false} TotalsAreSums(count: nat, users: seq<User>)
    ensures var u := Totals(count, users);
      && u.userCount == count
      && u.todayTokens == Sum(users, (user: User) => user.todayTokens)
      && u.totalTokens == Sum(users, (user: User) => user.totalTokens)
      && u.todayImages == Sum(users, (user: User) => user.todayImages)
      && u.totalImages == Sum(users, (user: User) => user.totalImages)
  {
    if users != [] {
      var init, last := users[..|users| - 1], users[|users| - 1];
      assert users == init + [last];
      TotalsAreSums(count, init);
      SumSnoc(init, last, (user: User) => user.todayTokens);
      SumSnoc(init, last, (user: User) => user.totalTokens);
      SumSnoc(init, last, (user: User) => user.todayImages);
      SumSnoc(init, last, (user: User) => user.totalImages);
    }
  }

  /** The inner loop over one page. */
  method AddPage(usage0: Usage, page: seq<User>) returns (usage: Usage)
    ensures usage == AddAll(usage0, page) && usage.userCount == usage0.userCount
  {
    usage := usage0;
    for i := 0 to |page|
      invariant usage == AddAll(usage0, page[..i]) && usage.userCount == usage0.userCount
    {
      assert page[..i + 1][..i] == page[..i];
      usage := usage.(todayTokens := usage.todayTokens + page[i].todayTokens);
      usage := usage.(totalTokens := usage.totalTokens + page[i].totalTokens);
      usage := usage.(todayImages := usage.todayImages + page[i].todayImages);
      usage := usage.(totalImages := usage.totalImages + page[i].totalImages);
    }
    assert page[..|page|] == page;
  }

  /** The `k`-th call of a loop returns an error. */
  predicate CallFails(fails: set<nat>, k: nat) {
    k * LIMIT in fails
  }

  predicate NoneFails(fails: set<nat>, calls: nat) {
    forall k :: 0 <= k < calls ==> !CallFails(fails, k)
  }

  /** The loop is at its `k`-th call. */
  ghost predicate AtCall(users: seq<User>, cap: nat, offset: nat, k: nat) {
    offset == k * LIMIT && k + Calls(users, cap, offset) == Calls(users, cap, 0)
  }

  lemma CallStep(users: seq<User>, cap: nat, offset: nat, k: nat)
    requires AtCall(users, cap, offset, k)
    ensures k < Calls(users, cap, 0)
    ensures if LastPage(users, cap, offset) then k + 1 == Calls(users, cap, 0)
            else AtCall(users, cap, offset + LIMIT, k + 1)
  {
  }

  function PageOf(users: seq<User>, cap: nat, k: nat): seq<User> {
    Page(users, cap, k * LIMIT)
  }

  /** `aiGatewayUsage`; `fails` holds the offsets whose call returns an error. */
  method AiGatewayUsage(users: seq<User>, cap: nat, fails: set<nat>)
    returns (r: Result<Usage, GatewayError>, calls: nat)
    ensures r.Ok? ==> r.value == Totals(|users|, Visited(users, cap, 0)) && calls == Calls(users, cap, 0)
    ensures r.Ok? <==> NoneFails(fails, Calls(users, cap, 0))
    ensures r.Err? ==> r.error == CallFailed
  {
    var usage := Usage(0, 0, 0, 0, 0);
    var offset := 0;
    calls := 0;
    while true
      invariant AddAll(usage.(userCount := |users|), Visited(users, cap, offset))
        == Totals(|users|, Visited(users, cap, 0))
      invariant AtCall(users, cap, offset, calls) && NoneFails(fails, calls)
      decreases |users| - offset
    {
      CallStep(users, cap, offset, calls);
      if offset in fails {
        assert CallFails(fails, calls);
        return Err(CallFailed), calls;
      }
      var page := Page(users, cap, offset);
      calls := calls + 1;
      usage := usage.(userCount := |users|);
      PageStep(usage, users, cap, offset);
      usage := AddPage(usage, page);
      if |page| == 0 || offset + |page| >= |users| {
        break;
      }
      assert usage.(userCount := |users|) == usage;
      offset := offset + LIMIT;
    }
    r := Ok(usage);
  }

  // ---------------------------------------------------------------------------
  // Lookup

  function First(users: seq<User>, id: string): (r: Option<User>)
    ensures r.Some? <==> exists u :: u in users && u.id == id
    ensures r.Some? ==> r.value in users && r.value.id == id
  {
    if users == [] then None
    else if users[0].id == id then Some(users[0])
    else First(users[1..], id)
  }

  lemma {:induction false} FirstConcat(a: seq<User>, b: seq<User>, id: string)
    ensures First(a + b, id) == if First(a, id).Some? then First(a, id) else First(b, id)
  {
    if a == [] {
      assert a + b == b;
    } else {
      assert (a + b)[1..] == a[1..] + b;
      FirstConcat(a[1..], b, id);
    }
  }

  /** A call fails before a page with the user was received. */
  ghost predicate FailsFirst(users: seq<User>, cap: nat, fails: set<nat>, id: string) {
    exists k :: FailsFirstAt(users, cap, fails, id, k)
  }

  predicate FailsFirstAt(users: seq<User>, cap: nat, fails: set<nat>, id: string, k: nat) {
    && k < Calls(users, cap, 0) && CallFails(fails, k)
    && NotAmong(users, cap, id, k)
  }

  predicate NotAmong(users: seq<User>, cap: nat, id: string, pages: nat) {
    forall j :: 0 <= j < pages ==> First(PageOf(users, cap, j), id).None?
  }

  lemma FoundFirst(users: seq<User>, cap: nat, fails: set<nat>, id: string, k: nat)
    requires NoneFails(fails, k + 1) && First(PageOf(users, cap, k), id).Some?
    ensures !FailsFirst(users, cap, fails, id)
  {
  }

  /** The search goes on at `offset` as if it had started there. */
  ghost predicate SearchesFrom(users: seq<User>, cap: nat, offset: nat, id: string) {
    First(Visited(users, cap, 0), id) == First(Visited(users, cap, offset), id)
  }

  lemma SearchStep(users: seq<User>, cap: nat, offset: nat, id: string)
    requires SearchesFrom(users, cap, offset, id)
    ensures var found := First(Page(users, cap, offset), id);
      if found.Some? then First(Visited(users, cap, 0), id) == found
      else if LastPage(users, cap, offset) then First(Visited(users, cap, 0), id) == None
      else SearchesFrom(users, cap, offset + LIMIT, id)
  {
    var page := Page(users, cap, offset);
    FirstConcat(page, if LastPage(users, cap, offset) then [] else Visited(users, cap, offset + LIMIT), id);
  }

  /** The inner loop over one page. */
  method FindInPage(page: seq<User>, id: string) returns (found: Option<User>)
    ensures found == First(page, id)
  {
    for i := 0 to |page|
      invariant First(page, id) == First(page[i..], id)
    {
      assert page[i..][1..] == page[i + 1..];
      if page[i].id == id {
        return Some(page[i]);
      }
    }
    return None;
  }

  /** `aiGatewayGetUser`. */
  method AiGatewayGetUser(users: seq<User>, cap: nat, fails: set<nat>, userId: string)
    returns (r: Result<User, GatewayError>)
    ensures TrimSpace(userId) == [] ==> r == Err(MissingUserId)
    ensures TrimSpace(userId) != [] ==>
      var found := First(Visited(users, cap, 0), TrimSpace(userId));
      r == if FailsFirst(users, cap, fails, TrimSpace(userId)) then Err(CallFailed)
           else if found.Some? then Ok(found.value) else Err(UserNotFound)
  {
    var id := TrimSpace(userId);
    if id == [] {
      return Err(MissingUserId);
    }
    var offset := 0;
    ghost var calls := 0;
    while true
      invariant AtCall(users, cap, offset, calls) && NoneFails(fails, calls) && NotAmong(users, cap, id, calls)
      invariant SearchesFrom(users, cap, offset, id)
      decreases |users| - offset
    {
      CallStep(users, cap, offset, calls);
      if offset in fails {
        assert FailsFirstAt(users, cap, fails, id, calls);
        return Err(CallFailed);
      }
      var page := Page(users, cap, offset);
      SearchStep(users, cap, offset, id);
      assert page == PageOf(users, cap, calls) && NoneFails(fails, calls + 1);
      var found := FindInPage(page, id);
      if found.Some? {
        FoundFirst(users, cap, fails, id, calls);
        return Ok(found.value);
      }
      if |page| == 0 || offset + |page| >= |users| {
        break;
      }
      offset := offset + LIMIT;
      calls := calls + 1;
    }
    return Err(UserNotFound);
  }

  // ---------------------------------------------------------------------------
  // Conservation

  lemma {:induction false} VisitedFull(users: seq<User>, cap: nat, offset: nat)
    requires cap >= LIMIT && offset <= |users|
    ensures Visited(users, cap, offset) == users[offset..]
    decreases |users| - offset
  {
    if !LastPage(users, cap, offset) {
      VisitedFull(users, cap, offset + LIMIT);
    }
  }

  lemma {:induction false} VisitedBound(users: seq<User>, cap: nat, offset: nat)
    ensures |Visited(users, cap, offset)| <= if offset <= |users| then |users| - offset else 0
    decreases |users| - offset
  {
    if !LastPage(users, cap, offset) {
      VisitedBound(users, cap, offset + LIMIT);
    }
  }

  /** Each user is visited exactly once, in order, if and only if the server honours the page
      size the loop asks for or everything fits on its first page: the offset always advances
      by the size asked for, not by the size received. */
  lemma ConservationExact(users: seq<User>, cap: nat)
    ensures Visited(users, cap, 0) == users <==> cap >= LIMIT || |users| <= cap
  {
    if cap >= LIMIT {
      VisitedFull(users, cap, 0);
    } else if |users| <= cap {
      assert Page(users, cap, 0) == users;
    } else if cap > 0 {
      VisitedBound(users, cap, LIMIT);
      assert |Page(users, cap, 0)| == cap;
    }
  }

  /** With a server that honours the page size the number of calls is the number of pages, and
      one for an empty list. */
  lemma {:induction false} CallCount(users: seq<User>, cap: nat, offset: nat)
    requires cap >= LIMIT && offset <= |users|
    ensures Calls(users, cap, offset) == if offset == |users| then 1 else (|users| - offset + LIMIT - 1) / LIMIT
    decreases |users| - offset
  {
    if !LastPage(users, cap, offset) {
      CallCount(users, cap, offset + LIMIT);
    }
  }

  /** Against a server that honours the page size: the totals are those over all users, and a
      user is found exactly when the id exists. */
  lemma FullServer(users: seq<User>, cap: nat, id: string)
    requires cap >= 100
    ensures var u := Totals(|users|, Visited(users, cap, 0));
      && u.userCount == |users|
      && u.todayTokens == Sum(users, (user: User) => user.todayTokens)
      && u.totalTokens == Sum(users, (user: User) => user.totalTokens)
      && u.todayImages == Sum(users, (user: User) => user.todayImages)
      && u.totalImages == Sum(users, (user: User) => user.totalImages)
    ensures First(Visited(users, cap, 0), id).Some? <==> exists u :: u in users && u.id == id
    ensures Calls(users, cap, 0) == if users == [] then 1 else (|users| + 99) / 100
  {
    ConservationExact(users, cap);
    CallCount(users, cap, 0);
    TotalsAreSums(|users|, users);
  }
}
