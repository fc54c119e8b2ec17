/** The shop endpoints: the fixed catalog, a purchase through a chain of
    guards ending in a coin spend, and the balance lookup
    (backend/controllers/shopController.js). */
module ShopController {
  import opened Common
  import Users

  datatype ShopItem = ShopItem(id: string, name: string, description: string, price: int, icon: string, category: string)

  /** The items `getShopItems` lists. */
  const Catalog: seq<ShopItem> := [
    ShopItem("time-bonus", "B\U{f4}nus de Tempo", "Adiciona 30 segundos extras ao jogo", 50, "clock", "bonus"),
    ShopItem("score-multiplier", "Multiplicador de Pontos", "Dobra os pontos por 1 minuto", 75, "zap", "bonus"),
    ShopItem("item-magnet", "\U{cd}m\U{e3} de Itens", "Atrai itens automaticamente por 30 segundos", 60, "magnet", "bonus"),
    ShopItem("extra-life", "Vida Extra", "Uma chance extra de completar a fase", 100, "heart", "bonus"),
    ShopItem("hint-system", "Sistema de Dicas", "Mostra a localiza\U{e7}\U{e3}o de itens pr\U{f3}ximos", 40, "eye", "bonus"),
    ShopItem("speed-boost", "Impulso de Velocidade", "Aumenta a velocidade de movimento por 45 segundos", 55, "wind", "bonus")
  ]

  /** The price table `purchaseItem` charges from, written separately from
      the catalog. */
  const ItemPrices: map<string, int> := map[
    "time-bonus" := 50, "score-multiplier" := 75, "item-magnet" := 60,
    "extra-life" := 100, "hint-system" := 40, "speed-boost" := 55]

  /** The two tables agree: every catalog item is sold at its listed price,
      and nothing else is sold. */
  lemma PricesMatchCatalog()
    ensures forall i :: 0 <= i < |Catalog| ==> Catalog[i].id in ItemPrices && ItemPrices[Catalog[i].id] == Catalog[i].price
    ensures forall id :: id in ItemPrices ==> exists i :: 0 <= i < |Catalog| && Catalog[i].id == id
    ensures forall id :: id in ItemPrices ==> ItemPrices[id] > 0
  {
    CatalogPriced();
    PricedInCatalog();
  }

  lemma CatalogPriced()
    ensures forall i :: 0 <= i < |Catalog| ==> Catalog[i].id in ItemPrices && ItemPrices[Catalog[i].id] == Catalog[i].price
  {
    forall i | 0 <= i < |Catalog|
      ensures Catalog[i].id in ItemPrices && ItemPrices[Catalog[i].id] == Catalog[i].price
    {
      if i == 0 { assert Catalog[i].id == "time-bonus"; }
      else if i == 1 { assert Catalog[i].id == "score-multiplier"; }
      else if i == 2 { assert Catalog[i].id == "item-magnet"; }
      else if i == 3 { assert Catalog[i].id == "extra-life"; }
      else if i == 4 { assert Catalog[i].id == "hint-system"; }
      else { assert Catalog[i].id == "speed-boost"; }
    }
  }

  lemma PricedInCatalog()
    ensures forall id :: id in ItemPrices ==> exists i :: 0 <= i < |Catalog| && Catalog[i].id == id
  {
    forall id | id in ItemPrices
      ensures exists i :: 0 <= i < |Catalog| && Catalog[i].id == id
    {
      if id == "time-bonus" { assert Catalog[0].id == id; }
      else if id == "score-multiplier" { assert Catalog[1].id == id; }
      else if id == "item-magnet" { assert Catalog[2].id == id; }
      else if id == "extra-life" { assert Catalog[3].id == id; }
      else if id == "hint-system" { assert Catalog[4].id == id; }
      else { assert Catalog[5].id == id; }
    }
  }

  /** The balance a loaded user object holds. */
  function LoadedBalance(rec: Users.UserRecord): int {
    if rec.profile.senacoins == 0 then 100 else rec.profile.senacoins
  }

  datatype Purchase = Purchase(user: Users.UserView, purchasedItem: string)

  /** `purchaseItem`: 400 for a missing id, 404 for an unknown user, 400 for
      an unpriced item and 400 for too few coins, each with nothing changed;
      otherwise the price is spent. */
  method PurchaseItem(userId: Option<string>, itemId: Option<string>, users: Users.UserStore, now: int)
    returns (res: Response<Purchase>)
    requires users.Valid()
    modifies users
    ensures users.Valid() && users.order == old(users.order)
    ensures !TruthyStr(userId) || !TruthyStr(itemId) ==> res.BadRequest? && unchanged(users)
    ensures (TruthyStr(userId) && TruthyStr(itemId) && userId.value !in old(users.users)) ==>
              res.NotFound? && unchanged(users)
    ensures (TruthyStr(userId) && TruthyStr(itemId) && userId.value in old(users.users)
             && itemId.value !in ItemPrices) ==> res.BadRequest? && unchanged(users)
    ensures (TruthyStr(userId) && TruthyStr(itemId) && userId.value in old(users.users)
             && itemId.value in ItemPrices && LoadedBalance(old(users.users[userId.value])) < ItemPrices[itemId.value]) ==>
              res.BadRequest? && unchanged(users)
    ensures (TruthyStr(userId) && TruthyStr(itemId) && userId.value in old(users.users)
             && itemId.value in ItemPrices && LoadedBalance(old(users.users[userId.value])) >= ItemPrices[itemId.value]) ==>
              var rec := old(users.users[userId.value]);
              var balance := LoadedBalance(rec) - ItemPrices[itemId.value];
              && users.users == old(users.users)[userId.value := rec.(profile := rec.profile.(senacoins := balance))]
              && res.Ok? && res.value.user.senacoins == balance && res.value.purchasedItem == itemId.value
    ensures res.Ok? ==> itemId.Some? && itemId.value in ItemPrices
  {
    if !TruthyStr(userId) || !TruthyStr(itemId) {
      return BadRequest("ID do usu\U{e1}rio e do item s\U{e3}o obrigat\U{f3}rios");
    }
    var user := Users.LoadUser(users, userId.value, now);
    if user == null {
      return NotFound("Usu\U{e1}rio n\U{e3}o encontrado");
    }
    if itemId.value !in ItemPrices {
      return BadRequest("Item n\U{e3}o encontrado");
    }
    var price := ItemPrices[itemId.value];
    if user.senacoins < price {
      return BadRequest("Senacoins insuficientes");
    }
    Charge(user, price, users);
    res := Ok(Purchase(Users.ToJSON(users.users, user.Fields()), itemId.value));
  }

  /** The spend that ends a purchase the guards let through. */
  method Charge(user: Users.User, price: int, users: Users.UserStore)
    requires users.Valid() && user.id.Some? && user.id.value in users.users && user.senacoins >= price
    modifies user, users
    ensures users.Valid() && users.order == old(users.order)
    ensures user.Fields() == old(user.Fields()).(senacoins := old(user.senacoins) - price)
    ensures var rec := old(users.users[user.id.value]);
            users.users == old(users.users)[user.id.value := rec.(profile := rec.profile.(senacoins := old(user.senacoins) - price))]
  {
    var ok := user.SpendSenacoins(price, users);
  }

  datatype Balance = Balance(balance: int, user: Users.UserView)

  /** `getUserBalance`: the balance as loaded, so a stored 0 shows as 100. */
  function GetUserBalance(users: map<string, Users.UserRecord>, userId: string, now: int): (r: Response<Balance>)
    ensures r.NotFound? <==> userId !in users
    ensures r.Ok? ==> r.value.balance == LoadedBalance(users[userId]) && r.value.user.senacoins == r.value.balance
    ensures r.BadRequest? ==> false
  {
    match Users.FindById(users, userId, now)
    case None => NotFound("Usu\U{e1}rio n\U{e3}o encontrado")
    case Some(u) => Ok(Balance(u.senacoins, Users.ToJSON(users, u)))
  }
}
