/** The role and ownership rules the handlers apply. */
module Access {
  import opened Models

  /** Only donors and admins may list products: a buyer may not. */
  predicate CanCreateProduct(role: Role)
    ensures CanCreateProduct(role) <==> role != Buyer
  {
    role == Donor || role == Admin
  }

  /** An admin may change any product; anyone else only the products they
      donated, so a non-admin is refused exactly for another donor's product. */
  predicate CanModifyProduct(role: Role, actorId: string, donorId: string)
    ensures role == Admin ==> CanModifyProduct(role, actorId, donorId)
    ensures !CanModifyProduct(role, actorId, donorId) <==> role != Admin && actorId != donorId
  {
    role == Admin || actorId == donorId
  }

  /** Admins see every order; buyers and donors see only their own. */
  predicate SeesAllOrders(role: Role)
    ensures SeesAllOrders(role) <==> role != Buyer && role != Donor
  {
    role == Admin
  }

  /** Only admins may read the statistics overview: buyers and donors may not. */
  predicate CanViewStats(role: Role)
    ensures CanViewStats(role) <==> role != Buyer && role != Donor
  {
    role == Admin
  }
}
