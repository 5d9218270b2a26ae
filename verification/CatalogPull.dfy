/**
 The HubRise pull (src/hubrise/services/hubrise-catalog-sync.service.ts): categories, then dishes, then
 supplements.
 */
module CatalogPull {
  import opened Wrappers
  import opened CatalogTables

  datatype Text = Text(name: string, description: Option<string>)

  datatype DishText = DishText(name: string, description: Option<string>, price: int, category: nat)

  datatype Creation = Creation(image: Option<string>, active: bool)

  datatype SupplementKind = Food | Drink | Accessory

  datatype Offer = Offer(kind: SupplementKind, available: bool)

  datatype MappedCategory = MappedCategory(reference: Option<string>, text: Text)

  datatype MappedDish = MappedDish(reference: Option<string>, name: string, description: Option<string>, price: int,
                                   image: Option<string>, categoryReference: Option<string>)

  /** `kind` is what the group's name lets infer. */
  datatype MappedSupplement = MappedSupplement(name: string, price: int, kind: SupplementKind)

  datatype Catalogue = Catalogue(categories: seq<MappedCategory>, dishes: seq<MappedDish>,
      supplements: seq<MappedSupplement>)

  type Categories = seq<Row<bool, Text>>

  type Dishes = seq<Row<Creation, DishText>>

  type Supplements = seq<Row<Offer, int>>

  datatype Store = Store(categories: Categories, dishes: Dishes, supplements: Supplements)

  datatype Tally = Tally(created: nat, updated: nat, skipped: nat)

  predicate Given(s: Option<string>) {
    s.Some? && s.value != ""
  }

  /** Entries without a reference are skipped. */
  function CategoryEntries(cs: seq<MappedCategory>): seq<Entry<bool, Text>> {
    if cs == [] then []
    else
      var c := cs[|cs| - 1];
      CategoryEntries(cs[..|cs| - 1]) + if Given(c.reference) then [Entry(c.reference.value, true, c.text)] else []
  }

  /** A missing category reference is looked up as the empty one. */
  function CategoryOf(categories: Categories, d: MappedDish): (i: nat)
    ensures i <= |categories|
  {
    Find(categories, if d.categoryReference.Some? then d.categoryReference.value else "")
  }

  /** Dishes without a reference, or whose category is unknown, are skipped. */
  function DishEntries(categories: Categories, ds: seq<MappedDish>): seq<Entry<Creation, DishText>> {
    if ds == [] then []
    else
      var d := ds[|ds| - 1];
      DishEntries(categories, ds[..|ds| - 1])
      + if Given(d.reference) && CategoryOf(categories, d) < |categories|
        then [Entry(d.reference.value, Creation(d.image, true),
            DishText(d.name, d.description, d.price, CategoryOf(categories, d)))]
        else []
  }

  function SupplementEntries(ss: seq<MappedSupplement>): seq<Entry<Offer, int>> {
    seq(|ss|, i requires 0 <= i < |ss| => Entry(ss[i].name, Offer(ss[i].kind, true), ss[i].price))
  }

  function Pull(s: Store, c: Catalogue): Store {
    var categories := UpsertAll(s.categories, CategoryEntries(c.categories));
    Store(categories, UpsertAll(s.dishes, DishEntries(categories, c.dishes)),
        UpsertAll(s.supplements, SupplementEntries(c.supplements)))
  }

  /** What a group's counters must be: nothing is lost, and `created` is how much the table grew. */
  ghost predicate Accounts(t: Tally, entries: nat, before: nat, after: nat) {
    t.created + t.updated + t.skipped == entries && before + t.created == after
  }

  /** The references known so far lead to their rows. */
  ghost predicate Leads(refToId: map<string, nat>, categories: Categories) {
    forall r | r in refToId :: refToId[r] == Find(categories, r) < |categories|
  }

  lemma StillLeads(refToId: map<string, nat>, categories: Categories, e: Entry<bool, Text>)
    requires Leads(refToId, categories)
    ensures Leads(refToId[e.key := Find(categories, e.key)], Upsert(categories, e))
  {
    UpsertStep(categories, e);
    var categories' := Upsert(categories, e);
    forall r | r in refToId ensures Find(categories', r) == refToId[r] {
      FindIsStable(categories, categories', r);
    }
    FindIsFirst(categories', e.key, Find(categories, e.key));
  }

  // ---- The service -----------------------------------------------------------------------------------

  class CatalogSync {
    var categories: Categories
    var dishes: Dishes
    var supplements: Supplements

    function State(): Store
      reads this
    {
      Store(categories, dishes, supplements)
    }

    constructor (s: Store)
      ensures State() == s
    {
      categories, dishes, supplements := s.categories, s.dishes, s.supplements;
    }

    method WriteCategory(reference: string, text: Text) returns (id: nat, created: bool)
      modifies this`categories
      ensures categories == Upsert(old(categories), Entry(reference, true, text))
               && id == Find(old(categories), reference)
      ensures |categories| == |old(categories)| + if created then 1 else 0
    {
      id := Find(categories, reference);
      created := id == |categories|;
      if created {
        categories := categories + [Row(Some(reference), true, text)];
      } else {
        categories := categories[id := categories[id].(patched := text)];
      }
    }

    method WriteDish(reference: string, image: Option<string>, text: DishText) returns (created: bool)
      modifies this`dishes
      ensures dishes == Upsert(old(dishes), Entry(reference, Creation(image, true), text))
      ensures |dishes| == |old(dishes)| + if created then 1 else 0
    {
      var id := Find(dishes, reference);
      created := id == |dishes|;
      if created {
        dishes := dishes + [Row(Some(reference), Creation(image, true), text)];
      } else {
        dishes := dishes[id := dishes[id].(patched := text)];
      }
    }

    /** Also returns the id of each reference it saw. */
    method SyncCategories(cs: seq<MappedCategory>) returns (refToId: map<string, nat>, t: Tally)
      modifies this`categories
      ensures categories == UpsertAll(old(categories), CategoryEntries(cs))
      ensures Accounts(t, |cs|, |old(categories)|, |categories|)
      ensures Leads(refToId, categories)
    {
      ghost var was := categories;
      refToId, t := map[], Tally(0, 0, 0);
      for n := 0 to |cs|
        invariant categories == UpsertAll(was, CategoryEntries(cs[..n]))
        invariant Accounts(t, n, |was|, |categories|)
        invariant Leads(refToId, categories)
      {
        var c := cs[n];
        CategoryEntriesNext(cs, n);
        hide CategoryEntries, UpsertAll, Find, Upsert, Leads;
        if !Given(c.reference) {
          t := t.(skipped := t.skipped + 1);
          continue;
        }
        ghost var e := Entry(c.reference.value, true, c.text);
        UpsertAllThen(was, CategoryEntries(cs[..n]), e);
        StillLeads(refToId, categories, e);
        var i, created := WriteCategory(c.reference.value, c.text);
        t := if created then t.(created := t.created + 1) else t.(updated := t.updated + 1);
        refToId := refToId[c.reference.value := i];
      }
      assert cs[..|cs|] == cs;
    }

    /** The category comes from the references just synchronised, else from the database. */
    method ResolveCategory(d: MappedDish, refToId: map<string, nat>) returns (id: Option<nat>)
      requires Leads(refToId, categories)
      ensures id == if CategoryOf(categories, d) < |categories| then Some(CategoryOf(categories, d)) else None
    {
      id := None;
      if Given(d.categoryReference) && d.categoryReference.value in refToId {
        id := Some(refToId[d.categoryReference.value]);
      }
      if id.None? {
        var i := Find(categories, if d.categoryReference.Some? then d.categoryReference.value else "");
        id := if i < |categories| then Some(i) else None;
      }
    }

    method SyncDishes(ds: seq<MappedDish>, refToId: map<string, nat>) returns (t: Tally)
      requires Leads(refToId, categories)
      modifies this`dishes
      ensures dishes == UpsertAll(old(dishes), DishEntries(categories, ds))
      ensures Accounts(t, |ds|, |old(dishes)|, |dishes|)
    {
      ghost var was := dishes;
      t := Tally(0, 0, 0);
      for n := 0 to |ds|
        invariant dishes == UpsertAll(was, DishEntries(categories, ds[..n]))
        invariant Accounts(t, n, |was|, |dishes|)
      {
        var d := ds[n];
        DishEntriesNext(categories, ds, n);
        hide DishEntries, UpsertAll, CategoryOf, Find, Upsert, Leads;
        var category: Option<nat> := None;
        if Given(d.reference) {
          category := ResolveCategory(d, refToId);
        }
        if category.None? {
          t := t.(skipped := t.skipped + 1);
          continue;
        }
        var text := DishText(d.name, d.description, d.price, category.value);
        UpsertAllThen(was, DishEntries(categories, ds[..n]), Entry(d.reference.value, Creation(d.image, true), text));
        var created := WriteDish(d.reference.value, d.image, text);
        t := if created then t.(created := t.created + 1) else t.(updated := t.updated + 1);
      }
      assert ds[..|ds|] == ds;
    }

    method SyncSupplements(ss: seq<MappedSupplement>) returns (t: Tally)
      modifies this`supplements
      ensures supplements == UpsertAll(old(supplements), SupplementEntries(ss))
      ensures Accounts(t, |ss|, |old(supplements)|, |supplements|) && t.skipped == 0
    {
      ghost var was := supplements;
      t := Tally(0, 0, 0);
      for n := 0 to |ss|
        invariant supplements == UpsertAll(was, SupplementEntries(ss[..n]))
        invariant Accounts(t, n, |was|, |supplements|) && t.skipped == 0
      {
        var s := ss[n];
        UpsertAllThen(was, SupplementEntries(ss[..n]), Entry(s.name, Offer(s.kind, true), s.price));
        assert SupplementEntries(ss[..n + 1]) == SupplementEntries(ss[..n])
            + [Entry(s.name, Offer(s.kind, true), s.price)];
        var i := Find(supplements, s.name);
        if i < |supplements| {
          supplements := supplements[i := supplements[i].(patched := s.price)];
          t := t.(updated := t.updated + 1);
        } else {
          supplements := supplements + [Row(Some(s.name), Offer(s.kind, true), s.price)];
          t := t.(created := t.created + 1);
        }
      }
      assert ss[..|ss|] == ss;
    }

    method PullCatalog(c: Catalogue) returns (categoryTally: Tally, dishTally: Tally, supplementTally: Tally)
      modifies this
      ensures State() == Pull(old(State()), c)
      ensures Accounts(categoryTally, |c.categories|, |old(categories)|, |categories|)
      ensures Accounts(dishTally, |c.dishes|, |old(dishes)|, |dishes|)
      ensures Accounts(supplementTally, |c.supplements|, |old(supplements)|, |supplements|)
    {
      var refToId;
      refToId, categoryTally := SyncCategories(c.categories);
      dishTally := SyncDishes(c.dishes, refToId);
      supplementTally := SyncSupplements(c.supplements);
    }
  }

  lemma UpsertAllThen<F, P>(t: seq<Row<F, P>>, es: seq<Entry<F, P>>, e: Entry<F, P>)
    ensures UpsertAll(t, es + [e]) == Upsert(UpsertAll(t, es), e)
  {
    assert (es + [e])[..|es|] == es;
  }

  lemma CategoryEntriesNext(cs: seq<MappedCategory>, n: nat)
    requires n < |cs|
    ensures !Given(cs[n].reference) ==> CategoryEntries(cs[..n + 1]) == CategoryEntries(cs[..n])
    ensures Given(cs[n].reference) ==>
              CategoryEntries(cs[..n + 1]) == CategoryEntries(cs[..n])
                  + [Entry(cs[n].reference.value, true, cs[n].text)]
  {
    assert cs[..n + 1][..n] == cs[..n];
  }

  lemma DishEntriesNext(categories: Categories, ds: seq<MappedDish>, n: nat)
    requires n < |ds|
    ensures var d, i := ds[n], CategoryOf(categories, ds[n]);
            && (!Given(d.reference) || i == |categories| ==>
                  DishEntries(categories, ds[..n + 1]) == DishEntries(categories, ds[..n]))
            && (Given(d.reference) && i < |categories| ==>
                  DishEntries(categories, ds[..n + 1]) == DishEntries(categories, ds[..n])
                    + [Entry(d.reference.value, Creation(d.image, true), DishText(d.name, d.description, d.price, i))])
  {
    assert ds[..n + 1][..n] == ds[..n];
  }

  // ---- Pulling twice ---------------------------------------------------------------------------------

  /**
   Main result: for any database and any catalogue, pulling twice leaves what pulling once leaves; references
   stay unique.
   */
  lemma PullTwice(s: Store, c: Catalogue)
    ensures Pull(Pull(s, c), c) == Pull(s, c)
    ensures UniqueKeys(s.categories) ==> UniqueKeys(Pull(s, c).categories)
    ensures UniqueKeys(s.dishes) ==> UniqueKeys(Pull(s, c).dishes)
  {
    var dishEntries := DishEntries(Pull(s, c).categories, c.dishes);
    TwiceIsOnce(s.categories, CategoryEntries(c.categories));
    TwiceIsOnce(s.dishes, dishEntries);
    TwiceIsOnce(s.supplements, SupplementEntries(c.supplements));
    if UniqueKeys(s.categories) {
      KeysStayUnique(s.categories, CategoryEntries(c.categories));
    }
    if UniqueKeys(s.dishes) {
      KeysStayUnique(s.dishes, dishEntries);
    }
    hide UpsertAll, CategoryEntries, DishEntries, SupplementEntries, UniqueKeys;
  }

  /** Main result: counters that account for a second pull of the same catalogue show nothing created. */
  lemma SecondPullCreatesNothing(s: Store, c: Catalogue, categories: Tally, dishes: Tally, supplements: Tally)
    requires var once := Pull(s, c);
             var twice := Pull(once, c);
             && Accounts(categories, |c.categories|, |once.categories|, |twice.categories|)
             && Accounts(dishes, |c.dishes|, |once.dishes|, |twice.dishes|)
             && Accounts(supplements, |c.supplements|, |once.supplements|, |twice.supplements|)
    ensures categories.created == dishes.created == supplements.created == 0
  {
    PullTwice(s, c);
    hide Pull;
  }

  lemma {:induction false} CategoryIsEntered(cs: seq<MappedCategory>, i: nat)
    requires i < |cs| && Given(cs[i].reference)
    ensures Mentions(CategoryEntries(cs), cs[i].reference.value)
  {
    var before := CategoryEntries(cs[..|cs| - 1]);
    if i < |cs| - 1 {
      CategoryIsEntered(cs[..|cs| - 1], i);
      var j :| 0 <= j < |before| && before[j].key == cs[i].reference.value;
      assert CategoryEntries(cs)[j] == before[j];
    } else {
      assert CategoryEntries(cs)[|before|].key == cs[i].reference.value;
    }
  }

  /** The dish is not skipped: it is entered, under the row of the category it names. */
  ghost predicate IsEntered(categories: Categories, ds: seq<MappedDish>, i: nat)
    requires i < |ds|
  {
    var d, k := ds[i], CategoryOf(categories, ds[i]);
    && Given(d.reference) && k < |categories| && categories[k].key == d.categoryReference
    && DishEntries(categories, ds[..i + 1])
       == DishEntries(categories, ds[..i])
          + [Entry(d.reference.value, Creation(d.image, true), DishText(d.name, d.description, d.price, k))]
  }

  /**
   Main result: a dish with a reference whose category was pulled is never skipped, and its row then says what the last
   entry of its reference says.
   */
  lemma DishesOfPulledCategoriesAreKept(s: Store, c: Catalogue, i: nat, j: nat)
    requires i < |c.dishes| && j < |c.categories| && Given(c.dishes[i].reference)
    requires Given(c.categories[j].reference) && c.dishes[i].categoryReference == c.categories[j].reference
    ensures var s' := Pull(s, c);
            var es, ref := DishEntries(s'.categories, c.dishes), c.dishes[i].reference.value;
            && IsEntered(s'.categories, c.dishes, i) && Mentions(es, ref)
            && Find(s'.dishes, ref) < |s'.dishes| && s'.dishes[Find(s'.dishes, ref)].patched == Last(es, ref)
  {
    CategoryIsEntered(c.categories, j);
    LastEntryWins(s.categories, CategoryEntries(c.categories), c.categories[j].reference.value);
    var s' := Pull(s, c);
    assert CategoryOf(s'.categories, c.dishes[i]) < |s'.categories|;
    DishIsEntered(s'.categories, c.dishes, i);
    DishEntriesNext(s'.categories, c.dishes, i);
    LastEntryWins(s.dishes, DishEntries(s'.categories, c.dishes), c.dishes[i].reference.value);
    hide UpsertAll, CategoryEntries, DishEntries, SupplementEntries, Last;
  }

  lemma {:induction false} DishIsEntered(categories: Categories, ds: seq<MappedDish>, i: nat)
    requires i < |ds| && Given(ds[i].reference) && CategoryOf(categories, ds[i]) < |categories|
    ensures Mentions(DishEntries(categories, ds), ds[i].reference.value)
  {
    var before := DishEntries(categories, ds[..|ds| - 1]);
    if i < |ds| - 1 {
      DishIsEntered(categories, ds[..|ds| - 1], i);
      var j :| 0 <= j < |before| && before[j].key == ds[i].reference.value;
      assert DishEntries(categories, ds)[j] == before[j];
    } else {
      assert DishEntries(categories, ds)[|before|].key == ds[i].reference.value;
    }
  }
}
