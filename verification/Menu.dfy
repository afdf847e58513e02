/**
 * What a statement on restaurants, menus, images and accounts makes of its row: when it succeeds, what
 * the row has then, column by column, and that no other row is touched.
 */
module Menu {
  import opened Prelude
  import opened Schema
  import opened Sql

  lemma RestaurantCreated(db: Db, id: Id, terms: Terms, logo: Option<Id>)
    ensures var r := Exec(db, CreateRestaurant(id, terms, logo));
      && (r.Ok? <==> id !in db.restaurants && (logo.Some? ==> logo.value in db.images))
      && (r.Ok? ==> r.value == db.(restaurants := db.restaurants[id := Restaurant(terms, logo, false)]))
  {}

  /** A living restaurant's terms and logo are as sent or as they were. */
  lemma RestaurantEdited(db: Db, id: Id, terms: Option<Terms>, logo: Option<Option<Id>>)
    requires RestaurantsOk(db)
    ensures var r := Exec(db, UpdateRestaurant(id, terms, logo));
      && (r.Ok? <==> && id in db.restaurants && !db.restaurants[id].deleted
                     && (logo.Some? && logo.value.Some? ==> logo.value.value in db.images))
      && (id !in db.restaurants || db.restaurants[id].deleted ==> r == Err(NotFound))
      && (r.Ok? ==>
            && id in r.value.restaurants
            && var was, row := db.restaurants[id], r.value.restaurants[id];
            && row.terms == (if terms.Some? then terms.value else was.terms)
            && row.logo == (if logo.Some? then logo.value else was.logo) && row.deleted == was.deleted
            && r.value == db.(restaurants := db.restaurants[id := row]))
  {}

  lemma CategoryCreated(db: Db, id: Id, at: Id, name: string)
    ensures var r := Exec(db, CreateCategory(id, at, name));
      && (r.Ok? <==> at in db.restaurants && id !in db.categories)
      && (r.Ok? ==> r.value == db.(categories := db.categories[id := Category(at, name, false)]))
  {}

  lemma UnfiledRows(db: Db, id: Id)
    ensures var db' := Unfiled(db, id);
      && db' == db.(dishes := db'.dishes) && db'.dishes.Keys == db.dishes.Keys
      && (forall d | d in db.dishes ::
            db'.dishes[d] == if db.dishes[d].category == Some(id) then db.dishes[d].(category := None) else db.dishes[d])
  {}

  lemma CategoryStatementIs(db: Db, id: Id)
    ensures Exec(db, SoftDeleteCategory(id)) == BuryCategory(db, id)
    ensures After(db, SoftDeleteCategory(id)) == match BuryCategory(db, id) case Ok(db') => db' case Err(_) => Unfiled(db, id)
  {
    hide BuryCategory, Unfiled;
  }

  /**
   * A living category is marked deleted and its dishes, and no others, leave it; one that is not is
   * answered NotFound, and dishes that were still in it leave it all the same.
   */
  lemma CategoryDeleted(db: Db, id: Id)
    ensures var r, db' := Exec(db, SoftDeleteCategory(id)), After(db, SoftDeleteCategory(id));
      && (r.Ok? <==> id in db.categories && !db.categories[id].deleted)
      && (!r.Ok? ==> r == Err(NotFound) && db'.categories == db.categories)
      && (r.Ok? ==> db'.categories == db.categories[id := db.categories[id].(deleted := true)])
      && db'.dishes.Keys == db.dishes.Keys
      && (forall d | d in db.dishes ::
            db'.dishes[d] == if db.dishes[d].category == Some(id) then db.dishes[d].(category := None) else db.dishes[d])
      && db' == db.(categories := db'.categories, dishes := db'.dishes)
  {
    CategoryStatementIs(db, id);
    UnfiledRows(db, id);
    hide Exec, After, Unfiled;
  }

  /** Where a dish may point: a category of its own restaurant, and a picture there is. */
  predicate MayPoint(db: Db, restaurant: Id, category: Option<Id>, image: Option<Id>) {
    && (category.Some? ==> category.value in db.categories && db.categories[category.value].restaurant == restaurant)
    && (image.Some? ==> image.value in db.images)
  }

  lemma DishCreated(db: Db, id: Id, row: Dish)
    ensures var r := Exec(db, CreateMenuItem(id, row));
      && (r.Ok? <==> && id !in db.dishes && row.restaurant in db.restaurants
                     && MayPoint(db, row.restaurant, row.category, row.image))
      && (r.Ok? ==>
            r.value == db.(dishes := db.dishes[id := Dish(row.restaurant, row.category, row.image, row.name, row.price,
                                                          row.available, false)]))
  {}

  /** A living dish's category, picture, name, price and availability are as sent or as they were. */
  lemma DishEdited(db: Db, id: Id, u: DishUpdate)
    requires DishesOk(db)
    ensures var r := Exec(db, UpdateMenuItem(id, u));
      && (r.Ok? <==> && id in db.dishes && !db.dishes[id].deleted
                     && MayPoint(db, db.dishes[id].restaurant, if u.category.Some? then u.category.value else None,
                                 if u.image.Some? then u.image.value else None))
      && (id !in db.dishes || db.dishes[id].deleted ==> r == Err(NotFound))
      && (!r.Ok? && id in db.dishes && !db.dishes[id].deleted ==> r == Err(UnknownReference))
      && (r.Ok? ==>
            && id in r.value.dishes
            && var was, row := db.dishes[id], r.value.dishes[id];
            && row.category == (if u.category.Some? then u.category.value else was.category)
            && row.image == (if u.image.Some? then u.image.value else was.image)
            && row.name == (if u.name.Some? then u.name.value else was.name)
            && row.price == (if u.price.Some? then u.price.value else was.price)
            && row.available == (if u.available.Some? then u.available.value else was.available)
            && row.restaurant == was.restaurant && row.deleted == was.deleted
            && r.value == db.(dishes := db.dishes[id := row]))
  {
    hide InsertOrder, ChangeOrder, RemoveOrders, RemoveItems, NewItem, ChangeItem, RemapAndDelete, Draw, Swept, HardDelete;
  }

  lemma ModificationCreated(db: Db, id: Id, dish: Id, name: string, delta: int)
    ensures var r := Exec(db, CreateModification(id, dish, name, delta));
      && (r.Ok? <==> dish in db.dishes && id !in db.mods)
      && (r.Ok? ==> r.value == db.(mods := db.mods[id := Modification(dish, name, delta, false)]))
  {}

  lemma ModificationEdited(db: Db, id: Id, name: Option<string>, delta: Option<int>)
    ensures var r := Exec(db, UpdateModification(id, name, delta));
      && (r.Ok? <==> id in db.mods && !db.mods[id].deleted) && (!r.Ok? ==> r == Err(NotFound))
      && (r.Ok? ==>
            r.value == db.(mods := db.mods[id :=
              Modification(db.mods[id].dish, if name.Some? then name.value else db.mods[id].name,
                           if delta.Some? then delta.value else db.mods[id].delta, false)]))
  {}

  lemma ModificationDeleted(db: Db, id: Id)
    ensures var r := Exec(db, SoftDeleteModification(id));
      && (r.Ok? <==> id in db.mods && !db.mods[id].deleted) && (!r.Ok? ==> r == Err(NotFound))
      && (r.Ok? ==> r.value == db.(mods := db.mods[id := db.mods[id].(deleted := true)]))
  {}

  lemma AccountAndImageCreated(db: Db, id: Id, now: Time)
    ensures var user, image := Exec(db, CreateUser(id)), Exec(db, CreateImage(id, now));
      && (user.Ok? <==> id !in db.users) && (user.Ok? ==> user.value == db.(users := db.users[id := User(false)]))
      && (image.Ok? <==> id !in db.images) && (image.Ok? ==> image.value == db.(images := db.images[id := now]))
  {}
}
