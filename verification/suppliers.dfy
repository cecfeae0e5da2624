/** The supplier registry: creation (one supplier per user account, names
    unique ignoring case, categories resolved all-or-nothing), editing,
    deletion guarded by product references, and category assignment. */
module Suppliers {
  import opened Base
  import opened Shop

  /** Resolve every category name, in order; the first name that matches no
      active category fails the whole list. */
  function ResolveCategories(cs: map<CategoryId, Category>, names: seq<string>): (r: Result<seq<CategoryId>>)
    ensures r.Ok? <==> forall i :: 0 <= i < |names| ==> FindCategoryByName(cs, names[i]).Some?
    ensures r.Err? ==> r.error == NotFound(CategoryEntity)
    ensures r.Ok? ==>
              && |r.value| == |names|
              && forall i :: 0 <= i < |names| ==> r.value[i] == FindCategoryByName(cs, names[i]).value
  {
    if |names| == 0 then Ok([])
    else
      match FindCategoryByName(cs, names[0])
      case None => Err(NotFound(CategoryEntity))
      case Some(c) =>
        var rest := ResolveCategories(cs, names[1..]);
        if rest.Err? then rest
        else Ok([c] + rest.value)
  }

  /** The account already has a supplier. */
  predicate IsSupplier(ss: map<SupplierId, Supplier>, u: UserId) {
    exists id | id in ss.Keys :: ss[id].user == u
  }

  /** Some supplier already has this name, ignoring case. */
  predicate SupplierNameTaken(ss: map<SupplierId, Supplier>, name: string) {
    exists id | id in ss.Keys :: SameName(ss[id].name, name)
  }

  /** Registering the active account with e-mail `email` as supplier `name`. */
  function AddSupplier(s: Store, name: string, contact: string, email: string,
                       categoryNames: seq<string>): (r: Result<Store>)
    ensures FindUserByEmail(s.users, email).None? ==> r == Err(NotFound(UserEntity))
    ensures FindUserByEmail(s.users, email).Some? && IsSupplier(s.suppliers, FindUserByEmail(s.users, email).value) ==>
              r == Err(Conflict(AlreadySupplier))
    // The later checks, each once the earlier ones have passed: a name held
    // by another supplier ignoring case, then an unknown category, then a
    // blank field refused by the schema at the write.
    ensures FindUserByEmail(s.users, email).Some? && !IsSupplier(s.suppliers, FindUserByEmail(s.users, email).value) ==>
              && (SupplierNameTaken(s.suppliers, name) ==> r == Err(Conflict(DuplicateName)))
              && (!SupplierNameTaken(s.suppliers, name) && ResolveCategories(s.categories, categoryNames).Err? ==>
                    r == Err(NotFound(CategoryEntity)))
              && (!SupplierNameTaken(s.suppliers, name) && ResolveCategories(s.categories, categoryNames).Ok? &&
                  (name == "" || contact == "") ==>
                    r == Err(Internal))
    ensures r.Ok? <==>
              && FindUserByEmail(s.users, email).Some?
              && !IsSupplier(s.suppliers, FindUserByEmail(s.users, email).value)
              && !SupplierNameTaken(s.suppliers, name)
              && ResolveCategories(s.categories, categoryNames).Ok?
              && name != "" && contact != ""
    // The supplier is stored under the next unused id, which is then spent.
    ensures r.Ok? ==>
              && r.value == s.(suppliers := r.value.suppliers, nextId := s.nextId + 1)
              && r.value.suppliers == s.suppliers[s.nextId := Supplier(name, contact, FindUserByEmail(s.users, email).value,
                                                                       ResolveCategories(s.categories, categoryNames).value, true)]
    ensures r.Ok? && IdsBelowNext(s) ==> s.nextId !in s.suppliers && IdsBelowNext(r.value)
    // One supplier per account and names unique ignoring case survive.
    ensures r.Ok? && OneSupplierPerUser(s.suppliers) && SupplierNamesUnique(s.suppliers) ==>
              OneSupplierPerUser(r.value.suppliers) && SupplierNamesUnique(r.value.suppliers)
  {
    match FindUserByEmail(s.users, email)
    case None => Err(NotFound(UserEntity))
    case Some(u) =>
      if IsSupplier(s.suppliers, u) then Err(Conflict(AlreadySupplier))
      else if SupplierNameTaken(s.suppliers, name) then Err(Conflict(DuplicateName))
      else
        match ResolveCategories(s.categories, categoryNames)
        case Err(e) => Err(e)
        case Ok(cats) =>
          if name == "" || contact == "" then Err(Internal)
          else Ok(s.(suppliers := s.suppliers[s.nextId := Supplier(name, contact, u, cats, true)],
                     nextId := s.nextId + 1))
  }

  /** Creation does not de-duplicate the requested category names: two names
      for the same category give a list holding it twice. */
  lemma AddSupplierRepeatsCategory(s: Store, name: string, contact: string, email: string, n1: string, n2: string)
    requires SameName(n1, n2)
    requires AddSupplier(s, name, contact, email, [n1, n2]).Ok?
    ensures var r := AddSupplier(s, name, contact, email, [n1, n2]).value;
            !NoDuplicates(r.suppliers[s.nextId].categories)
  {
    var cats := ResolveCategories(s.categories, [n1, n2]).value;
    assert FindCategoryByName(s.categories, n1) == FindCategoryByName(s.categories, n2) by {
      assert Fold(n1) == Fold(n2);
    }
    assert cats[0] == cats[1];
  }

  /** Another supplier than `id` already has exactly the name `n`: the
      schema's unique index refuses the rename. */
  predicate NameHeldByOther(ss: map<SupplierId, Supplier>, id: SupplierId, n: string) {
    exists j | j in ss.Keys :: j != id && ss[j].name == n
  }

  /** Editing supplier `id`: the category list is replaced only when a
      non-empty list is given and every name resolves; absent fields keep
      their values.  Blanking a required field fails validation before the
      lookup; an exact-name clash fails at the write. */
  function EditSupplier(s: Store, id: SupplierId, name: Option<string>, contact: Option<string>,
                        categoryNames: seq<string>): (r: Result<Store>)
    ensures |categoryNames| > 0 && ResolveCategories(s.categories, categoryNames).Err? ==>
              r == Err(NotFound(CategoryEntity))
    ensures r.Err? && r.error == NotFound(SupplierEntity) ==> id !in s.suppliers
    ensures |categoryNames| == 0 || ResolveCategories(s.categories, categoryNames).Ok? ==>
              && (name == Some("") || contact == Some("") ==> r == Err(Internal))
              && (name != Some("") && contact != Some("") && id !in s.suppliers ==>
                    r == Err(NotFound(SupplierEntity)))
              && (name != Some("") && contact != Some("") && id in s.suppliers &&
                  name.Some? && NameHeldByOther(s.suppliers, id, name.value) ==>
                    r == Err(Internal))
    ensures r.Ok? <==>
              && id in s.suppliers
              && (|categoryNames| > 0 ==> ResolveCategories(s.categories, categoryNames).Ok?)
              && name != Some("") && contact != Some("")
              && (name.Some? ==> !NameHeldByOther(s.suppliers, id, name.value))
    ensures r.Ok? ==>
              && r.value == s.(suppliers := r.value.suppliers)
              && r.value.suppliers.Keys == s.suppliers.Keys
              && (forall j :: j in s.suppliers && j != id ==> r.value.suppliers[j] == s.suppliers[j])
    ensures r.Ok? ==>
              var was := s.suppliers[id];
              var now := r.value.suppliers[id];
              && now.name == name.ValueOr(was.name)
              && now.contact == contact.ValueOr(was.contact)
              && now.user == was.user
              && now.active == was.active
              && now.categories == (if |categoryNames| > 0
                                    then ResolveCategories(s.categories, categoryNames).value
                                    else was.categories)
    // An edit never moves a supplier to another account.
    ensures r.Ok? && OneSupplierPerUser(s.suppliers) ==> OneSupplierPerUser(r.value.suppliers)
    ensures r.Ok? && IdsBelowNext(s) ==> IdsBelowNext(r.value)
  {
    var cats :=
      if |categoryNames| > 0 then ResolveCategories(s.categories, categoryNames) else Ok([]);
    if cats.Err? then Err(cats.error)
    else if name == Some("") || contact == Some("") then Err(Internal)
    else if id !in s.suppliers then Err(NotFound(SupplierEntity))
    else if name.Some? && NameHeldByOther(s.suppliers, id, name.value) then Err(Internal)
    else
      var was := s.suppliers[id];
      var now := was.(name := name.ValueOr(was.name),
                      contact := contact.ValueOr(was.contact),
                      categories := if |categoryNames| > 0 then cats.value else was.categories);
      Ok(s.(suppliers := s.suppliers[id := now]))
  }

  /** Renaming only checks the exact-match index, unlike creation: a rename
      that differs from another supplier's name only in letter case goes
      through and leaves two names equal ignoring case. */
  lemma EditSupplierAllowsCaseOnlyClash(s: Store, id: SupplierId, other: SupplierId, n: string,
                                        contact: Option<string>, categoryNames: seq<string>)
    requires id in s.suppliers && other in s.suppliers && other != id
    requires SameName(s.suppliers[other].name, n)
    requires EditSupplier(s, id, Some(n), contact, categoryNames).Ok?
    ensures !SupplierNamesUnique(EditSupplier(s, id, Some(n), contact, categoryNames).value.suppliers)
  {
  }

  /** The products that name supplier `id`. */
  function ProductsOf(ps: map<ProductId, Product>, id: SupplierId): (r: set<ProductId>)
    ensures forall p :: p in r <==> p in ps && ps[p].supplier == Some(id)
  {
    set p | p in ps.Keys && ps[p].supplier == Some(id)
  }

  /** Deleting supplier `id`, refused while any product references it. */
  function DeleteSupplier(s: Store, id: SupplierId): (r: Result<Store>)
    ensures (exists p :: p in s.products && s.products[p].supplier == Some(id)) ==>
              r.Err? && r.error.SupplierHasProducts? && r.error.count > 0
    ensures r.Err? && r.error.SupplierHasProducts? ==> r.error.count == |ProductsOf(s.products, id)|
    ensures ProductsOf(s.products, id) == {} && id !in s.suppliers ==> r == Err(NotFound(SupplierEntity))
    ensures r.Ok? <==> id in s.suppliers && ProductsOf(s.products, id) == {}
    ensures r.Ok? ==>
              && r.value == s.(suppliers := r.value.suppliers)
              && r.value.suppliers == s.suppliers - {id}
              && forall p :: p in s.products ==> s.products[p].supplier != Some(id)
    // Removing a supplier keeps one supplier per account and unique names.
    ensures r.Ok? && OneSupplierPerUser(s.suppliers) && SupplierNamesUnique(s.suppliers) ==>
              OneSupplierPerUser(r.value.suppliers) && SupplierNamesUnique(r.value.suppliers)
    ensures r.Ok? && IdsBelowNext(s) ==> IdsBelowNext(r.value)
  {
    var count := |ProductsOf(s.products, id)|;
    if count > 0 then Err(SupplierHasProducts(count))
    else if id !in s.suppliers then Err(NotFound(SupplierEntity))
    else Ok(s.(suppliers := s.suppliers - {id}))
  }

  /** Adding the category named `categoryName` to the supplier named
      `supplierName`, refused when it is already there. */
  function AssignCategory(s: Store, supplierName: string, categoryName: string): (r: Result<Store>)
    ensures FindSupplierByName(s.suppliers, supplierName).None? ==> r == Err(NotFound(SupplierEntity))
    ensures FindSupplierByName(s.suppliers, supplierName).Some? && FindCategoryByName(s.categories, categoryName).None? ==>
              r == Err(NotFound(CategoryEntity))
    ensures FindSupplierByName(s.suppliers, supplierName).Some? && FindCategoryByName(s.categories, categoryName).Some? &&
            FindCategoryByName(s.categories, categoryName).value
              in s.suppliers[FindSupplierByName(s.suppliers, supplierName).value].categories ==>
              r == Err(Conflict(CategoryAlreadyAssigned))
    ensures r.Ok? <==>
              && FindSupplierByName(s.suppliers, supplierName).Some?
              && FindCategoryByName(s.categories, categoryName).Some?
              && FindCategoryByName(s.categories, categoryName).value
                   !in s.suppliers[FindSupplierByName(s.suppliers, supplierName).value].categories
    ensures r.Ok? ==>
              var id := FindSupplierByName(s.suppliers, supplierName).value;
              var c := FindCategoryByName(s.categories, categoryName).value;
              && r.value == s.(suppliers := r.value.suppliers)
              && r.value.suppliers == s.suppliers[id := s.suppliers[id].(categories := s.suppliers[id].categories + [c])]
    // A category is appended only when absent, so lists stay duplicate-free.
    ensures r.Ok? && (forall j :: j in s.suppliers ==> NoDuplicates(s.suppliers[j].categories)) ==>
              forall j :: j in r.value.suppliers ==> NoDuplicates(r.value.suppliers[j].categories)
    ensures r.Ok? && IdsBelowNext(s) ==> IdsBelowNext(r.value)
  {
    match FindSupplierByName(s.suppliers, supplierName)
    case None => Err(NotFound(SupplierEntity))
    case Some(id) =>
      match FindCategoryByName(s.categories, categoryName)
      case None => Err(NotFound(CategoryEntity))
      case Some(c) =>
        var sup := s.suppliers[id];
        if c in sup.categories then Err(Conflict(CategoryAlreadyAssigned))
        else Ok(s.(suppliers := s.suppliers[id := sup.(categories := sup.categories + [c])]))
  }

}
