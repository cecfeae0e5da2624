/** Shared vocabulary of the marketplace model: optional values, the handler
    error taxonomy, actors, name comparison as the store's case-insensitive
    lookups perform it, and the least id of a set (natural order). */
module Base {

  /** A request field that may be absent, or a lookup that may find nothing. */
  datatype Option<+T> = None | Some(value: T) {
    /** The value, or `fallback` for an absent field. */
    function ValueOr(fallback: T): T {
      if Some? then value else fallback
    }
  }

  /** The entity a `NotFound` failure is about. */
  datatype Entity = ProductEntity | CategoryEntity | UserEntity | CartEntity
                  | CartLineEntity | OrderEntity | SupplierEntity

  /** What a uniqueness failure collided with. */
  datatype ConflictReason = DuplicateName | AlreadySupplier | CategoryAlreadyAssigned

  /** One cart line whose live stock cannot cover its quantity at checkout. */
  datatype Shortage = Shortage(product: nat, name: string, available: int, requested: int)

  /** Every way a handler of the core can fail.  Each constructor stands for
      one distinct early return of the source handlers. */
  datatype Error =
    | QuantityBelowOne
    | MissingFields
    | InvalidEmail
    | InvalidPriceOrStock
    | InvalidPrice
    | NegativeStock
    | Forbidden
    | NotFound(entity: Entity)
    | Conflict(reason: ConflictReason)
    | InsufficientStock(available: int)
    | EmptyCart
    | ShortStock(items: seq<Shortage>)
    | SupplierHasProducts(count: nat)
    | Internal

  datatype Result<+T> = Ok(value: T) | Err(error: Error)

  /** The verdict of a check that either lets the request through or stops it. */
  datatype Outcome = Pass | Fail(error: Error)

  type UserId = nat

  /** The authenticated caller, as the JWT middleware attaches it. */
  datatype Actor = Actor(id: UserId, role: string)

  const AdminRole: string := "APP_ADMIN"

  predicate IsAdmin(a: Actor) {
    a.role == AdminRole
  }

  /** JavaScript falsiness of an optional text field: absent or empty. */
  predicate MissingText(o: Option<string>) {
    o.None? || o.value == ""
  }

  /** JavaScript falsiness of an optional number: absent or zero. */
  predicate MissingNumber(o: Option<int>) {
    o.None? || o.value == 0
  }

  // ---------------------------------------------------------------------------
  // Case-insensitive names
  // ---------------------------------------------------------------------------

  function Lower(c: char): (r: char)
    ensures 'A' <= c <= 'Z' ==> r != c && 'a' <= r <= 'z'
    ensures !('A' <= c <= 'Z') ==> r == c
  {
    if 'A' <= c <= 'Z' then (c as int - 'A' as int + 'a' as int) as char else c
  }

  /** The case-folded form under which two names are considered the same. */
  function Fold(s: string): (r: string)
    ensures |r| == |s|
    ensures forall i :: 0 <= i < |s| ==> r[i] == Lower(s[i])
  {
    seq(|s|, i requires 0 <= i < |s| => Lower(s[i]))
  }

  /** Equality of names ignoring ASCII letter case; the anchored, case-
      insensitive regular expressions of the lookups reduce to this. */
  predicate SameName(a: string, b: string) {
    Fold(a) == Fold(b)
  }

  predicate OccursAt(hay: string, needle: string, i: int) {
    0 <= i <= |hay| - |needle| && hay[i..i + |needle|] == needle
  }

  /** `needle` occurs as a contiguous piece of `hay`. */
  predicate Contains(hay: string, needle: string) {
    exists i | 0 <= i <= |hay| - |needle| :: OccursAt(hay, needle, i)
  }

  /** Unanchored case-insensitive match, as the catalogue search uses it. */
  predicate ContainsIgnoringCase(hay: string, needle: string) {
    Contains(Fold(hay), Fold(needle))
  }

  // ---------------------------------------------------------------------------
  // Ids in natural order
  // ---------------------------------------------------------------------------

  predicate IsLeast(m: nat, ids: set<nat>) {
    m in ids && forall x :: x in ids ==> m <= x
  }

  /** Every non-empty finite set of ids has a least element. */
  lemma {:induction false} LeastExists(ids: set<nat>) returns (lo: nat)
    requires ids != {}
    ensures IsLeast(lo, ids)
    decreases |ids|
  {
    var y :| y in ids;
    var rest := ids - {y};
    if rest == {} {
      assert ids == {y};
      lo := y;
    } else {
      var l := LeastExists(rest);
      lo := if y < l then y else l;
      forall x | x in ids
        ensures lo <= x
      {
        if x != y {
          assert x in rest;
        }
      }
    }
  }

  /** The least id of a non-empty set: the document a `findOne` without a
      sort returns, ids being handed out in insertion order. */
  function MinId(ids: set<nat>): (m: nat)
    requires ids != {}
    ensures m in ids
    ensures forall x :: x in ids ==> m <= x
  {
    assert exists m :: IsLeast(m, ids) by {
      var lo := LeastExists(ids);
    }
    var m :| IsLeast(m, ids); m
  }
}
