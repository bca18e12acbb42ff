/** The four persisted entities and the exceptions the services throw.
    Money is an integer count of minor currency units (the `decimal(10,2)`
    columns), timestamps are integers, and primary keys are uuid strings. */
module Entities {
  import opened Common

  type Id = string

  datatype UserRole = RoleAdmin | RoleUser

  datatype WeaponCategory = Light | Heavy | Explosive

  datatype OrderStatus = Pending | Approved | Rejected

  datatype User = User(
    id: Id,
    username: string,
    passwordHash: string,
    role: UserRole,
    licenseNumber: Option<string>,   // free text, nullable
    licenseImage: Option<string>,
    isVerified: bool,
    createdAt: int)

  datatype Weapon = Weapon(
    id: Id,
    name: string,
    description: string,
    price: int,
    stock: int,
    category: WeaponCategory,
    requiredLicenseLevel: int,
    updatedAt: int)                  // refreshed by every update of the row

  /** One order line; `priceAtPurchase` freezes the weapon's price at sale time. */
  datatype OrderItem = OrderItem(weaponId: Id, quantity: int, priceAtPurchase: int)

  datatype Order = Order(
    id: Id,
    totalPrice: int,
    status: OrderStatus,
    createdAt: int,
    userId: Id,
    items: seq<OrderItem>)

  /** The database: one table per entity, keyed by primary key. */
  datatype Store = Store(
    users: map<Id, User>,
    weapons: map<Id, Weapon>,
    orders: map<Id, Order>)

  /** Every weapon row is stored under its own primary key. */
  ghost predicate WeaponsKeyed(weapons: map<Id, Weapon>) {
    forall k :: k in weapons ==> weapons[k].id == k
  }

  /** Every order row is stored under its own primary key. */
  ghost predicate OrdersKeyed(s: Store) {
    forall k :: k in s.orders ==> s.orders[k].id == k
  }

  /** The exceptions the services raise. */
  datatype Error =
    | UserNotFound
    | WeaponNotFound(weaponId: Id)
    | LicenseInsufficient(weaponName: string, requiredLevel: int, customerLevel: int)
    | InsufficientStock(weaponName: string, remaining: int)
    | OrderNotFound(orderId: Id)
    | Forbidden

  /** The HTTP exception class each error is thrown as. */
  datatype HttpException = NotFoundException | BadRequestException | ForbiddenException

  function ExceptionOf(e: Error): (x: HttpException)
    ensures x == BadRequestException <==> e.LicenseInsufficient? || e.InsufficientStock?
    ensures x == ForbiddenException <==> e.Forbidden?
  {
    match e
    case UserNotFound => NotFoundException
    case WeaponNotFound(_) => NotFoundException
    case LicenseInsufficient(_, _, _) => BadRequestException
    case InsufficientStock(_, _) => BadRequestException
    case OrderNotFound(_) => NotFoundException
    case Forbidden => ForbiddenException
  }
}
