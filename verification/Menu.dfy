/** The rows of one merchant's menu, and the database constraints on them
    (backend/internal/catalog/menu.go and its migrations). An empty link stands for NULL. */
module Menu {
  import opened Common

  datatype PriceMode = Priced | NoPrice | Weight

  /** A row of modifier_options. */
  datatype Choice = Choice(
    name: string, delta: int, cents: Option<int>, available: bool, grams: Option<int>, image: Option<string>)

  /** A row of modifier_groups with its options in sort order. */
  datatype Group = Group(
    name: string, minSelect: int, maxSelect: int, mode: PriceMode, base: Option<int>, choices: seq<Choice>)

  /** A row of menu_items. `own` are its groups with store_drinks false, `copies` those with store_drinks true. */
  datatype Item = Item(
    id: nat, name: string, price: int, cents: Option<int>, available: bool, code: string, barcode: string,
    section: string, drinksOff: bool, own: seq<Group>, copies: seq<Group>)

  /** A row of merchant_drinks. */
  datatype Drink = Drink(name: string, price: int, cents: Option<int>, image: Option<string>)

  /** The unique index on (merchant_id, external_code) where the code is present. */
  predicate UniqueCodes(items: seq<Item>) {
    forall i, j :: 0 <= i < j < |items| && items[i].code != "" ==> items[i].code != items[j].code
  }

  /** Ids are drawn fresh, so every id in use is below the next one. */
  predicate FreshIds(items: seq<Item>, nextId: nat) {
    && (forall i :: 0 <= i < |items| ==> items[i].id < nextId)
    && (forall i, j :: 0 <= i < j < |items| ==> items[i].id != items[j].id)
  }

  /** The merchant's rows as a value. */
  datatype MenuState = MenuState(
    items: seq<Item>, nextId: nat, rate: Option<real>, drinks: seq<Drink>, hasDrinks: bool, maxPrice: int)
  {
    predicate Valid() {
      UniqueCodes(items) && FreshIds(items, nextId)
    }

    /** merchantRate: the exchange rate, zero when none was written. */
    function Rate(): real {
      if rate.Some? then rate.value else 0.0
    }
  }

  /** The merchant's rows. `items` is in the order (created_at, id), oldest first. */
  class MenuDb {
    var items: seq<Item>
    var nextId: nat
    var rate: Option<real>
    var drinks: seq<Drink>
    /** The merchant's category has a drinks list. */
    const hasDrinks: bool
    /** merchants.max_item_price, zero for no limit. */
    const maxPrice: int

    predicate Valid()
      reads this
    {
      UniqueCodes(items) && FreshIds(items, nextId)
    }

    function State(): MenuState
      reads this
    {
      MenuState(items, nextId, rate, drinks, hasDrinks, maxPrice)
    }

    function Rate(): real
      reads this
    {
      if rate.Some? then rate.value else 0.0
    }

    constructor (hasDrinks: bool, maxPrice: int)
      ensures Valid() && items == [] && drinks == [] && rate == None
      ensures this.hasDrinks == hasDrinks && this.maxPrice == maxPrice
    {
      items, nextId, rate, drinks := [], 0, None, [];
      this.hasDrinks, this.maxPrice := hasDrinks, maxPrice;
    }
  }
}
