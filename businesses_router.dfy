/**
  The businesses router: three public read procedures and three private write
  procedures over the Business table, and the join that pairs each business
  with its owner's public profile.

  Collaborators the model does not look inside are parameters:
    - the identity provider's answer to `getUserList` is a sequence of users;
    - the rate limiter's answer to `limit(userId)` is the boolean `allowed`;
    - the database's id generator supplies `newId`;
    - the authentication middleware's result is `caller` (absent when signed out);
    - zod's URL check is the function `isUrl` the router is built with.
*/
module BusinessesRouter {
  import opened Common
  import opened BusinessValidator

  /** A row of the Business table. */
  datatype Business = Business(
    id: string,
    userId: string,
    name: string,
    businessType: Option<string>,
    url: string,
    phone: Option<string>)

  /** A user as the identity provider hands it over, already reduced to its public fields. */
  datatype User = User(
    id: string,
    username: Option<string>,
    firstName: Option<string>,
    lastName: Option<string>,
    imageUrl: string)

  /** The owner part of a listing: the user's fields with a username that is always present. */
  datatype Author = Author(
    id: string,
    username: string,
    firstName: Option<string>,
    lastName: Option<string>,
    imageUrl: string)

  /** One entry of a list procedure's answer: `{ business, user }`. */
  datatype Listing = Listing(business: Business, user: Author)

  /** The error codes the procedures throw. */
  datatype ErrorCode =
    | NotFound
    | InternalServerError
    | TooManyRequests
    | Unauthorized
    | BadRequest(issues: seq<Issue>)

  /** The right-hand side of `user.username ?? ...`. */
  const UsernameFallback: string := "(username not found)"

  // ---------------------------------------------------------------------------
  // The enrichment join (addUserDataToBusinesses)
  // ---------------------------------------------------------------------------

  /** The position `users.find` stops at: the first user with the id, or `|users|` when there is none. */
  function FindIndex(users: seq<User>, id: string): (k: nat)
    ensures k <= |users|
    ensures forall j :: 0 <= j < k ==> users[j].id != id
    ensures k < |users| ==> users[k].id == id
  {
    if users == [] then 0
    else if users[0].id == id then 0
    else 1 + FindIndex(users[1..], id)
  }

  /**
    `users.find((user) => user.id === id)`: nothing exactly when no user has the
    id, and otherwise the first user in the list with the id.
  */
  function FindUser(users: seq<User>, id: string): (r: Option<User>)
    ensures r.None? <==> forall u :: u in users ==> u.id != id
    ensures r.Some? ==> r.value in users && r.value.id == id
    ensures forall k :: 0 <= k < |users| && users[k].id == id && (forall j :: 0 <= j < k ==> users[j].id != id)
                        ==> r == Some(users[k])
  {
    var k := FindIndex(users, id);
    if k < |users| then Some(users[k]) else None
  }

  /**
    `o ?? fallback`: a present value is kept, the empty text included; a
    missing value gives the fallback, and the fallback comes out only for a
    missing value or a value equal to it.
  */
  function Coalesce(o: Option<string>, fallback: string): (r: string)
    ensures o.Some? ==> r == o.value
    ensures o.None? ==> r == fallback
    ensures r == fallback ==> o.None? || o.value == fallback
    ensures o == Some([]) ==> r == []
  {
    if o.Some? then o.value else fallback
  }

  /** JavaScript truthiness of an optional text: `null`, `undefined` and `''` are the only falsy values. */
  predicate Truthy(o: Option<string>)
    ensures !Truthy(o) <==> o == None || o == Some([])
  {
    o.Some? && o.value != []
  }

  /** The body of the callback that `businesses.map` applies to each business. */
  function AttachUser(b: Business, users: seq<User>): (r: Result<Listing, ErrorCode>)
    ensures r == Err(NotFound) <==> forall u :: u in users ==> u.id != b.userId
    ensures r.Ok? <==> FindUser(users, b.userId).Some? && Truthy(FindUser(users, b.userId).value.username)
    ensures r == Err(InternalServerError) <==>
      FindUser(users, b.userId).Some? && !Truthy(FindUser(users, b.userId).value.username)
    ensures r.Err? ==> r.error == NotFound || r.error == InternalServerError
    ensures r.Ok? ==> FindUser(users, b.userId).Some?
    ensures r.Ok? ==> var u := FindUser(users, b.userId).value;
      && u.username == Some(r.value.user.username)
      && r.value == Listing(b, Author(b.userId, r.value.user.username, u.firstName, u.lastName, u.imageUrl))
    ensures r.Ok? ==> r.value.user.username != []
  {
    match FindUser(users, b.userId)
    case None => Err(NotFound)
    case Some(user) =>
      if !Truthy(user.username) then Err(InternalServerError)
      else Ok(Listing(b, Author(user.id, Coalesce(user.username, UsernameFallback),
                                user.firstName, user.lastName, user.imageUrl)))
  }

  /**
    `addUserDataToBusinesses(businesses)` given the identity provider's user list.
    Either every business is paired with its owner, in input order, or the first
    business (in input order) whose owner is missing or has no username decides
    the error.
  */
  function AddUserData(bs: seq<Business>, users: seq<User>): (r: Result<seq<Listing>, ErrorCode>)
    ensures r.Ok? <==> forall i :: 0 <= i < |bs| ==> AttachUser(bs[i], users).Ok?
    ensures r.Ok? ==> |r.value| == |bs|
    ensures r.Ok? ==> forall i :: 0 <= i < |bs| ==> AttachUser(bs[i], users) == Ok(r.value[i])
    ensures r.Err? ==> exists i :: (0 <= i < |bs| && AttachUser(bs[i], users) == Err(r.error)
                                    && forall j :: 0 <= j < i ==> AttachUser(bs[j], users).Ok?)
  {
    if bs == [] then Ok([])
    else
      match AttachUser(bs[0], users)
      case Err(e) => Err(e)
      case Ok(listing) =>
        var rest := AddUserData(bs[1..], users);
        if rest.Err? then
          FirstFailureShifts(bs, users, rest.error);
          Err(rest.error)
        else
          AllAttachedShift(bs, users, listing, rest.value);
          Ok([listing] + rest.value)
  }

  /** A first failure in the tail, after a head that resolves, is the first failure of the whole list. */
  lemma FirstFailureShifts(bs: seq<Business>, users: seq<User>, e: ErrorCode)
    requires bs != [] && AttachUser(bs[0], users).Ok?
    requires exists i :: (0 <= i < |bs[1..]| && AttachUser(bs[1..][i], users) == Err(e)
                          && forall j :: 0 <= j < i ==> AttachUser(bs[1..][j], users).Ok?)
    ensures exists i :: (0 <= i < |bs| && AttachUser(bs[i], users) == Err(e)
                         && forall j :: 0 <= j < i ==> AttachUser(bs[j], users).Ok?)
    ensures !forall i :: 0 <= i < |bs| ==> AttachUser(bs[i], users).Ok?
  {
    var i :| 0 <= i < |bs[1..]| && AttachUser(bs[1..][i], users) == Err(e)
             && forall j :: 0 <= j < i ==> AttachUser(bs[1..][j], users).Ok?;
    assert bs[i + 1] == bs[1..][i];
    assert AttachUser(bs[i + 1], users) == Err(e);
    forall j | 0 < j < i + 1 ensures AttachUser(bs[j], users).Ok? {
      assert bs[j] == bs[1..][j - 1];
      assert AttachUser(bs[1..][j - 1], users).Ok?;
    }
  }

  /** Listings for the head and for the tail make the listings of the whole list. */
  lemma AllAttachedShift(bs: seq<Business>, users: seq<User>, listing: Listing, rest: seq<Listing>)
    requires bs != [] && AttachUser(bs[0], users) == Ok(listing)
    requires |rest| == |bs| - 1
    requires forall i :: 0 <= i < |bs[1..]| ==> AttachUser(bs[1..][i], users) == Ok(rest[i])
    ensures forall i :: 0 <= i < |bs| ==> AttachUser(bs[i], users) == Ok(([listing] + rest)[i])
  {
    var all := [listing] + rest;
    assert all[0] == listing;
    forall i | 0 < i < |bs| ensures AttachUser(bs[i], users) == Ok(all[i]) {
      assert bs[i] == bs[1..][i - 1] && all[i] == rest[i - 1];
      assert AttachUser(bs[1..][i - 1], users) == Ok(rest[i - 1]);
    }
  }

  /** The businesses of a list of listings, in order. */
  function Businesses(ls: seq<Listing>): seq<Business>
  {
    seq(|ls|, i requires 0 <= i < |ls| => ls[i].business)
  }

  /** A successful join returns the input businesses unchanged and in order, each with its owner. */
  lemma AddUserDataKeepsBusinesses(bs: seq<Business>, users: seq<User>)
    requires AddUserData(bs, users).Ok?
    ensures Businesses(AddUserData(bs, users).value) == bs
    ensures forall l :: l in AddUserData(bs, users).value ==> l.user.id == l.business.userId
  {
    var ls := AddUserData(bs, users).value;
    forall i | 0 <= i < |bs| ensures ls[i].business == bs[i] && ls[i].user.id == bs[i].userId {
      assert AttachUser(bs[i], users) == Ok(ls[i]);
    }
  }

  /**
    On every path that reaches the `??`, the owner's username is present and
    non-empty, so the listing carries it and the fallback text is never chosen.
  */
  lemma UsernameFallbackUnreachable(b: Business, users: seq<User>)
    requires AttachUser(b, users).Ok?
    ensures var u := FindUser(users, b.userId).value;
      && Truthy(u.username)
      && Coalesce(u.username, UsernameFallback) == u.username.value
      && AttachUser(b, users).value.user.username == u.username.value
  {
  }

  /** The first user in the list with the owner's id is the one used, whatever later users say. */
  lemma FirstMatchingUserWins(b: Business, users: seq<User>, u: User, more: seq<User>)
    requires u.id == b.userId
    requires forall v :: v in users ==> v.id != b.userId
    ensures AttachUser(b, users + [u] + more) == AttachUser(b, users + [u])
  {
    var s1, s2 := users + [u] + more, users + [u];
    assert forall j :: 0 <= j < |users| ==> s1[j] == users[j] && s2[j] == users[j];
    assert s1[|users|] == u && s2[|users|] == u;
    assert FindIndex(s1, b.userId) == |users|;
    assert FindIndex(s2, b.userId) == |users|;
  }

  // ---------------------------------------------------------------------------
  // Ordering by name (orderBy: [{ name: 'asc' }])
  // ---------------------------------------------------------------------------

  /** Ascending text order: lexicographic on code points, a prefix before its extensions. */
  predicate NameLe(a: string, b: string)
  {
    a == [] || (b != [] && (a[0] < b[0] || (a[0] == b[0] && NameLe(a[1..], b[1..]))))
  }

  lemma {:induction false} NameLeTotal(a: string, b: string)
    ensures NameLe(a, b) || NameLe(b, a)
  {
    if a != [] && b != [] && a[0] == b[0] {
      NameLeTotal(a[1..], b[1..]);
    }
  }

  lemma {:induction false} NameLeTransitive(a: string, b: string, c: string)
    requires NameLe(a, b) && NameLe(b, c)
    ensures NameLe(a, c)
  {
    if a != [] && a[0] == b[0] && b[0] == c[0] {
      NameLeTransitive(a[1..], b[1..], c[1..]);
    }
  }

  lemma {:induction false} NameLeAntisymmetric(a: string, b: string)
    requires NameLe(a, b) && NameLe(b, a)
    ensures a == b
  {
    if a != [] {
      NameLeAntisymmetric(a[1..], b[1..]);
      assert a == [a[0]] + a[1..] && b == [b[0]] + b[1..];
    }
  }

  predicate SortedByName(bs: seq<Business>)
  {
    forall i, j :: 0 <= i < j < |bs| ==> NameLe(bs[i].name, bs[j].name)
  }

  /** Inserting after a head that `b` exceeds keeps a sorted list sorted. */
  lemma InsertAfterHeadSorted(b: Business, bs: seq<Business>, rest: seq<Business>)
    requires bs != [] && !NameLe(b.name, bs[0].name)
    requires multiset(rest) == multiset(bs[1..]) + multiset{b}
    requires SortedByName(bs[1..]) ==> SortedByName(rest)
    ensures SortedByName(bs) ==> SortedByName([bs[0]] + rest)
  {
    if SortedByName(bs) {
      NameLeTotal(b.name, bs[0].name);
      forall x | x in rest ensures NameLe(bs[0].name, x.name) {
        assert x in multiset(rest);
        if x != b {
          assert x in bs[1..];
          var j :| 0 <= j < |bs[1..]| && bs[1..][j] == x;
          assert bs[j + 1] == x;
        }
      }
      assert SortedByName(bs[1..]);
      assert forall i :: 0 < i < |[bs[0]] + rest| ==> ([bs[0]] + rest)[i] == rest[i - 1];
      assert forall i :: 0 < i < |[bs[0]] + rest| ==> ([bs[0]] + rest)[i] in rest;
    }
  }

  /** `b` placed before the first business whose name it does not exceed. */
  function InsertByName(b: Business, bs: seq<Business>): (r: seq<Business>)
    ensures multiset(r) == multiset(bs) + multiset{b}
    ensures SortedByName(bs) ==> SortedByName(r)
  {
    if bs == [] then [b]
    else if NameLe(b.name, bs[0].name) then
      assert SortedByName(bs) ==> forall j :: 0 <= j < |bs| ==> NameLe(b.name, bs[j].name) by {
        forall j | 0 <= j < |bs| && SortedByName(bs) ensures NameLe(b.name, bs[j].name) {
          if j > 0 { NameLeTransitive(b.name, bs[0].name, bs[j].name); }
        }
      }
      [b] + bs
    else
      var rest := InsertByName(b, bs[1..]);
      assert multiset(bs) == multiset{bs[0]} + multiset(bs[1..]) by {
        assert bs == [bs[0]] + bs[1..];
      }
      InsertAfterHeadSorted(b, bs, rest);
      [bs[0]] + rest
  }

  /** The stored order of a name-sorted query: a sorted rearrangement of the rows. */
  function SortByName(bs: seq<Business>): (r: seq<Business>)
    ensures multiset(r) == multiset(bs)
    ensures SortedByName(r)
  {
    if bs == [] then []
    else
      assert bs == [bs[0]] + bs[1..];
      InsertByName(bs[0], SortByName(bs[1..]))
  }

  /** No two different businesses share a name. */
  predicate NamesIdentify(bs: seq<Business>)
  {
    forall x, y :: x in bs && y in bs && x.name == y.name ==> x == y
  }

  /** Two name-sorted arrangements of the same businesses, none sharing a name, start alike. */
  lemma SortedHeadsAgree(a: seq<Business>, b: seq<Business>)
    requires SortedByName(a) && SortedByName(b)
    requires multiset(a) == multiset(b)
    requires NamesIdentify(a)
    requires a != [] && b != []
    ensures a[0] == b[0]
  {
    assert a[0] in multiset(b) && b[0] in multiset(a);
    var k :| 0 <= k < |b| && b[k] == a[0];
    var m :| 0 <= m < |a| && a[m] == b[0];
    NameLeTotal(a[0].name, a[0].name);
    assert NameLe(a[0].name, b[0].name) by {
      if m > 0 { assert NameLe(a[0].name, a[m].name); }
    }
    assert NameLe(b[0].name, a[0].name) by {
      if k > 0 { assert NameLe(b[0].name, b[k].name); }
    }
    NameLeAntisymmetric(a[0].name, b[0].name);
    assert a[0] in a && b[0] in a;
  }

  /** Removing the same first element from two rearrangements leaves two rearrangements. */
  lemma TailsAlike(a: seq<Business>, b: seq<Business>)
    requires a != [] && b != [] && a[0] == b[0]
    requires multiset(a) == multiset(b)
    ensures multiset(a[1..]) == multiset(b[1..])
  {
    assert a == [a[0]] + a[1..];
    assert b == [b[0]] + b[1..];
    assert multiset(a[1..]) == multiset(a) - multiset{a[0]};
    assert multiset(b[1..]) == multiset(b) - multiset{b[0]};
  }

  /** Dropping the first business keeps a list sorted and keeps names identifying businesses. */
  lemma SortedTail(a: seq<Business>)
    requires a != []
    ensures SortedByName(a) ==> SortedByName(a[1..])
    ensures NamesIdentify(a) ==> NamesIdentify(a[1..])
  {
    assert forall x :: x in a[1..] ==> x in a;
    assert forall i :: 0 <= i < |a| - 1 ==> a[1..][i] == a[i + 1];
  }

  /** Two name-sorted arrangements of the same businesses, none sharing a name, are the same sequence. */
  lemma {:induction false} SortedByNameUnique(a: seq<Business>, b: seq<Business>)
    requires SortedByName(a) && SortedByName(b)
    requires multiset(a) == multiset(b)
    requires NamesIdentify(a)
    ensures a == b
  {
    assert |a| == |multiset(a)| == |multiset(b)| == |b|;
    if a != [] {
      SortedHeadsAgree(a, b);
      TailsAlike(a, b);
      SortedTail(a);
      SortedTail(b);
      SortedByNameUnique(a[1..], b[1..]);
      assert a == [a[0]] + a[1..] && b == [b[0]] + b[1..];
    }
  }

  /**
    When no two different businesses share a name, the name-sorted answer does
    not depend on the order in which the rows arrive from the database.
  */
  lemma SortByNameOrderIndependent(xs: seq<Business>, ys: seq<Business>)
    requires multiset(xs) == multiset(ys)
    requires NamesIdentify(xs)
    ensures SortByName(xs) == SortByName(ys)
  {
    var s := SortByName(xs);
    assert forall x :: x in s ==> x in multiset(xs);
    SortedByNameUnique(s, SortByName(ys));
  }

  // ---------------------------------------------------------------------------
  // Rows and listings
  // ---------------------------------------------------------------------------

  /** No id occurs twice. */
  predicate DistinctIds(bs: seq<Business>)
  {
    forall i, j :: 0 <= i < j < |bs| ==> bs[i].id != bs[j].id
  }

  /** `b` is the row stored under its own id. */
  predicate Stored(table: map<string, Business>, b: Business)
  {
    b.id in table && table[b.id] == b
  }

  /** The `where` filter of a query: no filter, or `userId` equal to the given owner. */
  predicate Selected(owner: Option<string>, b: Business)
  {
    owner.None? || b.userId == owner.value
  }

  /** `bs` lists every stored row the filter selects, each exactly once. */
  ghost predicate ListsExactly(bs: seq<Business>, table: map<string, Business>, owner: Option<string>)
  {
    && DistinctIds(bs)
    && forall b :: b in bs <==> Stored(table, b) && Selected(owner, b)
  }

  lemma DistinctIdsCons(h: Business, t: seq<Business>)
    ensures DistinctIds([h] + t) <==> DistinctIds(t) && forall x :: x in t ==> x.id != h.id
  {
    var s := [h] + t;
    assert forall i :: 0 < i < |s| ==> s[i] == t[i - 1];
    assert s[0] == h;
    if DistinctIds(s) {
      forall x | x in t ensures x.id != h.id {
        var i :| 0 <= i < |t| && t[i] == x;
        assert s[i + 1] == x;
      }
      forall i, j | 0 <= i < j < |t| ensures t[i].id != t[j].id {
        assert s[i + 1] == t[i] && s[j + 1] == t[j];
      }
    }
  }

  /** Inserting a business whose id is new keeps ids distinct. */
  lemma {:induction false} InsertByNameKeepsDistinct(b: Business, bs: seq<Business>)
    requires DistinctIds(bs) && forall x :: x in bs ==> x.id != b.id
    ensures DistinctIds(InsertByName(b, bs))
  {
    if bs == [] {
    } else if NameLe(b.name, bs[0].name) {
      DistinctIdsCons(b, bs);
    } else {
      var rest := InsertByName(b, bs[1..]);
      DistinctIdsCons(bs[0], bs[1..]);
      assert bs == [bs[0]] + bs[1..];
      InsertByNameKeepsDistinct(b, bs[1..]);
      assert forall x :: x in rest ==> x == b || x in bs[1..] by {
        forall x | x in rest ensures x == b || x in bs[1..] {
          assert x in multiset(rest);
        }
      }
      DistinctIdsCons(bs[0], rest);
    }
  }

  /** Sorting keeps ids distinct. */
  lemma {:induction false} SortByNameKeepsDistinct(bs: seq<Business>)
    requires DistinctIds(bs)
    ensures DistinctIds(SortByName(bs))
  {
    if bs != [] {
      DistinctIdsCons(bs[0], bs[1..]);
      assert bs == [bs[0]] + bs[1..];
      SortByNameKeepsDistinct(bs[1..]);
      var sorted := SortByName(bs[1..]);
      assert forall x :: x in sorted ==> x in bs[1..] by {
        forall x | x in sorted ensures x in bs[1..] {
          assert x in multiset(sorted);
        }
      }
      InsertByNameKeepsDistinct(bs[0], sorted);
    }
  }

  /** Joining a query's rows succeeds exactly when every selected row resolves, and keeps exactly those rows. */
  lemma AddUserDataOfQuery(bs: seq<Business>, table: map<string, Business>, owner: Option<string>, users: seq<User>)
    requires ListsExactly(bs, table, owner)
    ensures AddUserData(bs, users).Ok? <==> forall b :: Stored(table, b) && Selected(owner, b) ==> AttachUser(b, users).Ok?
    ensures AddUserData(bs, users).Ok? ==> Businesses(AddUserData(bs, users).value) == bs
    ensures AddUserData(bs, users).Err? ==>
      AddUserData(bs, users).error == NotFound || AddUserData(bs, users).error == InternalServerError
  {
    if AddUserData(bs, users).Ok? {
      AddUserDataKeepsBusinesses(bs, users);
    }
    assert forall b :: Stored(table, b) && Selected(owner, b) ==> b in bs;
  }

  /** Sorting a listing by name lists the same rows, each still exactly once. */
  lemma SortByNameListsExactly(bs: seq<Business>, table: map<string, Business>, owner: Option<string>)
    requires ListsExactly(bs, table, owner)
    ensures ListsExactly(SortByName(bs), table, owner) && SortedByName(SortByName(bs))
  {
    SortByNameKeepsDistinct(bs);
    var sorted := SortByName(bs);
    assert forall b :: b in sorted <==> b in bs by {
      forall b ensures b in sorted <==> b in bs {
        assert b in sorted <==> b in multiset(sorted);
        assert b in bs <==> b in multiset(bs);
      }
    }
  }

  /** The update schema `businessValidationSchema.extend({ id: z.string() })`: the id's issue comes last. */
  function ValidateUpdate(raw: RawBusiness, id: Option<string>, isUrl: string -> bool): (r: Result<(string, BusinessInput), seq<Issue>>)
    ensures r.Ok? <==> Validate(raw, isUrl).Ok? && id.Some?
    ensures r.Ok? ==> r.value == (id.value, Validate(raw, isUrl).value)
    ensures r.Err? ==> (Reports(r.error, IdField) <==> id.None?)
    ensures r.Err? ==> r.error == (if Validate(raw, isUrl).Err? then Validate(raw, isUrl).error else [])
                                  + (if id.None? then [Issue(IdField, Required)] else [])
  {
    var issues := SchemaIssues(raw, isUrl) + (if id.None? then [Issue(IdField, Required)] else []);
    if issues == [] then Ok((id.value, Validate(raw, isUrl).value))
    else
      assert id.None? ==> issues[|issues| - 1] in issues;
      Err(issues)
  }

  // ---------------------------------------------------------------------------
  // The procedures
  // ---------------------------------------------------------------------------

  class BusinessRouter {
    /** The Business table, keyed by id. */
    var table: map<string, Business>
    /** zod's URL check, which the model does not look inside. */
    const isUrl: string -> bool

    /** Every row is stored under its own id. */
    ghost predicate Valid()
      reads this
    {
      forall id :: id in table ==> table[id].id == id
    }

    constructor (isUrl: string -> bool)
      ensures Valid() && table == map[] && this.isUrl == isUrl
    {
      table := map[];
      this.isUrl := isUrl;
    }

    /** `prisma.business.findMany({ where })`: the selected rows, in an order the database chooses. */
    method FindMany(owner: Option<string>) returns (bs: seq<Business>)
      requires Valid()
      ensures ListsExactly(bs, table, owner)
    {
      bs := [];
      var pending := table.Keys;
      while pending != {}
        invariant pending <= table.Keys
        invariant DistinctIds(bs)
        invariant forall b :: b in bs <==> Stored(table, b) && Selected(owner, b) && b.id !in pending
        decreases pending
      {
        var id :| id in pending;
        var b := table[id];
        if Selected(owner, b) {
          assert forall i :: 0 < i < |[b] + bs| ==> ([b] + bs)[i] == bs[i - 1];
          bs := [b] + bs;
        }
        pending := pending - {id};
      }
    }

    /** `getAll`: every business with its owner, or the first failing business's error. */
    method GetAll(users: seq<User>) returns (r: Result<seq<Listing>, ErrorCode>)
      requires Valid()
      ensures exists bs :: ListsExactly(bs, table, None) && r == AddUserData(bs, users)
      ensures r.Ok? ==> ListsExactly(Businesses(r.value), table, None)
      ensures r.Ok? <==> forall b :: Stored(table, b) ==> AttachUser(b, users).Ok?
      ensures r.Err? ==> r.error == NotFound || r.error == InternalServerError
    {
      var bs := FindMany(None);
      r := AddUserData(bs, users);
      AddUserDataOfQuery(bs, table, None, users);
    }

    /** `getBusinessById`: the row with the id; a missing row is reported as an internal error. */
    function GetBusinessById(businessId: string): (r: Result<Business, ErrorCode>)
      reads this
      requires Valid()
      ensures r.Ok? <==> businessId in table
      ensures r.Ok? ==> Stored(table, r.value) && r.value.id == businessId
      ensures r.Err? ==> r.error == InternalServerError
    {
      if businessId in table then Ok(table[businessId]) else Err(InternalServerError)
    }

    /** `getBusinessesByUserId`: the owner's businesses sorted by name, each with its owner. */
    method GetBusinessesByUserId(userId: string, users: seq<User>) returns (r: Result<seq<Listing>, ErrorCode>)
      requires Valid()
      ensures exists bs :: ListsExactly(bs, table, Some(userId)) && SortedByName(bs) && r == AddUserData(bs, users)
      ensures r.Ok? ==> ListsExactly(Businesses(r.value), table, Some(userId)) && SortedByName(Businesses(r.value))
      ensures r.Ok? <==> forall b :: Stored(table, b) && b.userId == userId ==> AttachUser(b, users).Ok?
      ensures r.Err? ==> r.error == NotFound || r.error == InternalServerError
    {
      var found := FindMany(Some(userId));
      var bs := SortByName(found);
      SortByNameListsExactly(found, table, Some(userId));
      r := AddUserData(bs, users);
      AddUserDataOfQuery(bs, table, Some(userId), users);
    }

    /**
      `create`: the caller must be signed in and the input must parse; then the
      rate limiter's verdict decides. The new row belongs to the caller, holds
      the submitted name, url and phone, and has no business type.
    */
    method Create(caller: Option<string>, raw: RawBusiness, allowed: bool, newId: string)
      returns (r: Result<Business, ErrorCode>)
      requires Valid()
      requires newId !in table
      modifies this
      ensures Valid()
      ensures caller.None? ==> r == Err(Unauthorized)
      ensures caller.Some? && Validate(raw, isUrl).Err? ==> r == Err(BadRequest(Validate(raw, isUrl).error))
      ensures caller.Some? && Validate(raw, isUrl).Ok? && !allowed ==> r == Err(TooManyRequests)
      ensures r.Ok? <==> caller.Some? && Validate(raw, isUrl).Ok? && allowed
      ensures r.Ok? ==> r.value == Business(newId, caller.value, raw.name.value, None, raw.url.value, raw.phone)
      ensures r.Ok? ==> table == old(table)[newId := r.value] && GetBusinessById(newId) == Ok(r.value)
      ensures r.Err? ==> table == old(table)
    {
      if caller.None? {
        return Err(Unauthorized);
      }
      var userId := caller.value;
      var parsed := Validate(raw, isUrl);
      if parsed.Err? {
        return Err(BadRequest(parsed.error));
      }
      var input := parsed.value;
      if !allowed {
        return Err(TooManyRequests);
      }
      var business := Business(newId, userId, input.name, None, input.url, Some(input.phone));
      table := table[newId := business];
      r := Ok(business);
    }

    /**
      `update`: the same checks as `create`, then the row with the id is
      overwritten with the caller as owner and the submitted name, url and
      phone. The stored business type is left as it was, the previous owner is
      not consulted, and a missing row is reported as an internal error.
    */
    method Update(caller: Option<string>, raw: RawBusiness, id: Option<string>, allowed: bool)
      returns (r: Result<Business, ErrorCode>)
      requires Valid()
      modifies this
      ensures Valid()
      ensures caller.None? ==> r == Err(Unauthorized)
      ensures caller.Some? && ValidateUpdate(raw, id, isUrl).Err? ==> r == Err(BadRequest(ValidateUpdate(raw, id, isUrl).error))
      ensures caller.Some? && ValidateUpdate(raw, id, isUrl).Ok? && !allowed ==> r == Err(TooManyRequests)
      ensures caller.Some? && ValidateUpdate(raw, id, isUrl).Ok? && allowed && id.value !in old(table)
        ==> r == Err(InternalServerError)
      ensures r.Ok? <==> caller.Some? && ValidateUpdate(raw, id, isUrl).Ok? && allowed && id.value in old(table)
      ensures r.Ok? ==> r.value == old(table)[id.value].(userId := caller.value, name := raw.name.value,
                                                          url := raw.url.value, phone := raw.phone)
      ensures r.Ok? ==> table == old(table)[id.value := r.value] && GetBusinessById(id.value) == Ok(r.value)
      ensures r.Err? ==> table == old(table)
    {
      if caller.None? {
        return Err(Unauthorized);
      }
      var userId := caller.value;
      var parsed := ValidateUpdate(raw, id, isUrl);
      if parsed.Err? {
        return Err(BadRequest(parsed.error));
      }
      var (businessId, input) := parsed.value;
      if !allowed {
        return Err(TooManyRequests);
      }
      if businessId !in table {
        return Err(InternalServerError);
      }
      var business := table[businessId].(userId := userId, name := input.name, url := input.url,
                                         phone := Some(input.phone));
      table := table[businessId := business];
      r := Ok(business);
    }

    /**
      `delete`: any signed-in caller may remove any row; the rate limiter is
      not consulted. The removed row is returned; a missing row is reported as
      an internal error.
    */
    method Delete(caller: Option<string>, id: string) returns (r: Result<Business, ErrorCode>)
      requires Valid()
      modifies this
      ensures Valid()
      ensures caller.None? ==> r == Err(Unauthorized)
      ensures caller.Some? && id !in old(table) ==> r == Err(InternalServerError)
      ensures r.Ok? <==> caller.Some? && id in old(table)
      ensures r.Ok? ==> r.value == old(table)[id] && table == old(table) - {id}
      ensures r.Ok? ==> GetBusinessById(id) == Err(InternalServerError)
      ensures r.Err? ==> table == old(table)
    {
      if caller.None? {
        return Err(Unauthorized);
      }
      if id !in table {
        return Err(InternalServerError);
      }
      r := Ok(table[id]);
      table := table - {id};
    }
  }
}
