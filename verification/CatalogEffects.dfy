/** What a pull leaves in the three tables, in the catalogue's own terms. */
module CatalogEffects {
  import opened Wrappers
  import opened CatalogTables
  import opened CatalogPull

  // ---- Tables ---------------------------------------------------------------------------------------------

  lemma MentionsPrefix<F, P>(es: seq<Entry<F, P>>, e: Entry<F, P>, key: string)
    ensures Mentions(es + [e], key) <==> Mentions(es, key) || e.key == key
  {
    if i :| 0 <= i < |es| && es[i].key == key {
      assert (es + [e])[i].key == key;
    }
    if e.key == key {
      assert (es + [e])[|es|].key == key;
    }
    if i :| 0 <= i < |es + [e]| && (es + [e])[i].key == key {
      assert i == |es| || es[i].key == key;
    }
  }

  lemma LastOfMore<F, P>(es: seq<Entry<F, P>>, e: Entry<F, P>, key: string)
    requires Mentions(es + [e], key)
    ensures e.key != key ==> Mentions(es, key)
    ensures Last(es + [e], key) == if e.key == key then e.patched else Last(es, key)
  {
    MentionsPrefix(es, e, key);
    assert (es + [e])[..|es|] == es;
  }

  /** A row keeps what creation gave it; a new one has it from an entry of its key. */
  lemma {:induction false} CreatedFrom<F, P>(t: seq<Row<F, P>>, es: seq<Entry<F, P>>, i: nat)
    requires i < |UpsertAll(t, es)|
    ensures var row := UpsertAll(t, es)[i];
            if i < |t| then row.key == t[i].key && row.fixed == t[i].fixed
            else exists k :: 0 <= k < |es| && row.key == Some(es[k].key) && row.fixed == es[k].fixed
  {
    if es != [] {
      var n := |es| - 1;
      var mid := UpsertAll(t, es[..n]);
      UpsertAllKeepsRows(t, es[..n]);
      if i < |mid| {
        CreatedFrom(t, es[..n], i);
        if i >= |t| {
          var k :| 0 <= k < n && mid[i].key == Some(es[..n][k].key) && mid[i].fixed == es[..n][k].fixed;
          assert es[..n][k] == es[k];
        }
      } else {
        assert UpsertAll(t, es)[i].fixed == es[n].fixed;
      }
      hide Find;
    }
  }

  // ---- Categories -----------------------------------------------------------------------------------------

  /** The last entry with its reference. */
  predicate LastCategoryAt(cs: seq<MappedCategory>, i: nat) {
    && i < |cs| && cs[i].reference.Some? && cs[i].reference.value != ""
    && forall j | i < j < |cs| :: cs[j].reference != cs[i].reference
  }

  lemma {:induction false} LastCategory(cs: seq<MappedCategory>, i: nat)
    requires LastCategoryAt(cs, i)
    ensures var es, ref := CategoryEntries(cs), cs[i].reference.value;
            Mentions(es, ref) && Last(es, ref) == cs[i].text
  {
    var n := |cs| - 1;
    var c, ref := cs[n], cs[i].reference.value;
    CategoryIsEntered(cs, i);
    if i < n {
      LastCategory(cs[..n], i);
    }
    if Given(c.reference) {
      LastOfMore(CategoryEntries(cs[..n]), Entry(c.reference.value, true, c.text), ref);
    } else {
      assert CategoryEntries(cs) == CategoryEntries(cs[..n]);
    }
    hide Last, Mentions;
  }

  lemma {:induction false} CategoriesAreActive(cs: seq<MappedCategory>, k: nat)
    requires k < |CategoryEntries(cs)|
    ensures CategoryEntries(cs)[k].fixed
  {
    if k < |CategoryEntries(cs[..|cs| - 1])| {
      CategoriesAreActive(cs[..|cs| - 1], k);
    }
  }

  /**
   Main result: a category reads what the last entry of its reference says; a new one is ACTIVE, a known one
   stays as it was.
   */
  lemma CategoryReads(s: Store, c: Catalogue, i: nat)
    requires LastCategoryAt(c.categories, i)
    ensures var t, ref := Pull(s, c).categories, c.categories[i].reference;
            exists k :: 0 <= k < |t| && t[k].key == ref && t[k].patched == c.categories[i].text
                        && t[k].fixed == if k < |s.categories| then s.categories[k].fixed else true
  {
    var es, ref := CategoryEntries(c.categories), c.categories[i].reference.value;
    var t := UpsertAll(s.categories, es);
    LastCategory(c.categories, i);
    LastEntryWins(s.categories, es, ref);
    var k := Find(t, ref);
    CreatedFrom(s.categories, es, k);
    if k >= |s.categories| {
      var x :| 0 <= x < |es| && t[k].key == Some(es[x].key) && t[k].fixed == es[x].fixed;
      CategoriesAreActive(c.categories, x);
    }
    assert t[k].key == c.categories[i].reference && t[k].patched == c.categories[i].text;
    hide UpsertAll, CategoryEntries, DishEntries, SupplementEntries, Find;
  }

  // ---- Dishes ---------------------------------------------------------------------------------------------

  /** Where the category which a dish names is, if anywhere: a dish that names none is looked up under "". */
  predicate CategoryAt(categories: Categories, d: MappedDish, k: nat) {
    && k < |categories| && categories[k].key == Some(if d.categoryReference == None then ""
        else d.categoryReference.value)
    && forall j | 0 <= j < k :: categories[j].key != categories[k].key
  }

  lemma CategoryOfIs(categories: Categories, d: MappedDish, k: nat)
    requires CategoryAt(categories, d, k)
    ensures CategoryOf(categories, d) == k
  {
    FindIsFirst(categories, if d.categoryReference.Some? then d.categoryReference.value else "", k);
  }

  predicate LastDishAt(ds: seq<MappedDish>, i: nat) {
    && i < |ds| && ds[i].reference.Some? && ds[i].reference.value != ""
    && forall j | i < j < |ds| :: ds[j].reference != ds[i].reference
  }

  lemma {:induction false} LastDish(categories: Categories, ds: seq<MappedDish>, i: nat, k: nat)
    requires LastDishAt(ds, i) && CategoryAt(categories, ds[i], k)
    ensures var es, ref := DishEntries(categories, ds), ds[i].reference.value;
            && Mentions(es, ref)
            && Last(es, ref) == DishText(ds[i].name, ds[i].description, ds[i].price, k)
  {
    var n := |ds| - 1;
    var d, ref := ds[n], ds[i].reference.value;
    CategoryOfIs(categories, ds[i], k);
    DishIsEntered(categories, ds, i);
    if i < n {
      LastDish(categories, ds[..n], i, k);
    }
    if Given(d.reference) && CategoryOf(categories, d) < |categories| {
      var text := DishText(d.name, d.description, d.price, CategoryOf(categories, d));
      LastOfMore(DishEntries(categories, ds[..n]), Entry(d.reference.value, Creation(d.image, true), text), ref);
    } else {
      assert DishEntries(categories, ds) == DishEntries(categories, ds[..n]);
    }
    hide Last, Mentions, CategoryOf, CategoryAt;
  }

  lemma {:induction false} DishImages(categories: Categories, ds: seq<MappedDish>, k: nat)
    requires k < |DishEntries(categories, ds)|
    ensures var e := DishEntries(categories, ds)[k];
            exists j :: 0 <= j < |ds| && ds[j].reference == Some(e.key) && e.fixed == Creation(ds[j].image, true)
  {
    var n := |ds| - 1;
    if k < |DishEntries(categories, ds[..n])| {
      DishImages(categories, ds[..n], k);
      var e := DishEntries(categories, ds[..n])[k];
      var j :| 0 <= j < n && ds[..n][j].reference == Some(e.key) && e.fixed == Creation(ds[..n][j].image, true);
      assert ds[j].reference == Some(e.key);
    } else {
      assert ds[n].reference == Some(DishEntries(categories, ds)[k].key);
    }
    hide CategoryOf;
  }

  /**
   Main result: a dish whose category is known reads what the last entry of its reference says, under that category; a
   new one is ACTIVE with the image of an entry of its reference, a known one keeps its image and status.
   */
  lemma DishReads(s: Store, c: Catalogue, i: nat, k: nat)
    requires LastDishAt(c.dishes, i) && CategoryAt(Pull(s, c).categories, c.dishes[i], k)
    ensures var t, d := Pull(s, c).dishes, c.dishes[i];
            exists x :: 0 <= x < |t| && t[x].key == d.reference
              && t[x].patched == DishText(d.name, d.description, d.price, k)
              && if x < |s.dishes| then t[x].fixed == s.dishes[x].fixed
                 else exists j :: 0 <= j < |c.dishes| && c.dishes[j].reference == d.reference
                                  && t[x].fixed == Creation(c.dishes[j].image, true)
  {
    var categories := Pull(s, c).categories;
    var es, ref := DishEntries(categories, c.dishes), c.dishes[i].reference.value;
    var t := UpsertAll(s.dishes, es);
    LastDish(categories, c.dishes, i, k);
    LastEntryWins(s.dishes, es, ref);
    var x := Find(t, ref);
    assert t[x].key == Some(ref);
    CreatedFrom(s.dishes, es, x);
    if x >= |s.dishes| {
      var y :| 0 <= y < |es| && t[x].key == Some(es[y].key) && t[x].fixed == es[y].fixed;
      DishImages(categories, c.dishes, y);
    }
    hide UpsertAll, CategoryEntries, DishEntries, SupplementEntries, Find, CategoryAt;
  }

  // ---- Supplements ----------------------------------------------------------------------------------------

  /**
   Main result: a supplement has the last price of its name; a new one is available and of an entry's kind, a
   known one stays as it was.
   */
  lemma SupplementReads(s: Store, c: Catalogue, i: nat)
    requires i < |c.supplements| && forall j | i < j < |c.supplements| :: c.supplements[j].name != c.supplements[i].name
    ensures var t, sup := Pull(s, c).supplements, c.supplements[i];
            exists x :: 0 <= x < |t| && t[x].key == Some(sup.name) && t[x].patched == sup.price
              && if x < |s.supplements| then t[x].fixed == s.supplements[x].fixed
                 else exists j :: 0 <= j < |c.supplements| && c.supplements[j].name == sup.name
                                  && t[x].fixed == Offer(c.supplements[j].kind, true)
  {
    var es, name := SupplementEntries(c.supplements), c.supplements[i].name;
    var t := UpsertAll(s.supplements, es);
    assert es[i].key == name;
    LastSupplement(c.supplements, i);
    LastEntryWins(s.supplements, es, name);
    var x := Find(t, name);
    assert t[x].key == Some(name);
    CreatedFrom(s.supplements, es, x);
    if x >= |s.supplements| {
      var y :| 0 <= y < |es| && t[x].key == Some(es[y].key) && t[x].fixed == es[y].fixed;
      assert c.supplements[y].name == name && t[x].fixed == Offer(c.supplements[y].kind, true);
    }
    hide UpsertAll, CategoryEntries, DishEntries, SupplementEntries, Find;
  }

  lemma {:induction false} LastSupplement(ss: seq<MappedSupplement>, i: nat)
    requires i < |ss| && forall j | i < j < |ss| :: ss[j].name != ss[i].name
    ensures Mentions(SupplementEntries(ss), ss[i].name) && Last(SupplementEntries(ss), ss[i].name) == ss[i].price
  {
    var n := |ss| - 1;
    var es := SupplementEntries(ss);
    assert es[i].key == ss[i].name;
    if i < n {
      LastSupplement(ss[..n], i);
      assert es[..n] == SupplementEntries(ss[..n]);
    }
  }
}
