/** The object-level permission of the recipe endpoints
    (backend/api/permissions.py). */
module Permissions {
  import opened Common
  import opened UsersModels

  /** Methods that only read. */
  const SAFE_METHODS: set<string> := {"GET", "HEAD", "OPTIONS"}

  /** The user behind a request: anonymous, or an authenticated account
      with its id and staff flag. */
  datatype Requester = Anonymous | Authenticated(id: UserId, isStaff: bool)

  /** `IsAuthorOrAdminOrReadOnly.has_object_permission`: anyone may read;
      writing needs an authenticated author of the object or a staff
      member. */
  predicate HasObjectPermission(httpMethod: string, who: Requester, objAuthor: UserId)
    ensures httpMethod in SAFE_METHODS ==> HasObjectPermission(httpMethod, who, objAuthor)
    ensures httpMethod !in SAFE_METHODS && who.Anonymous? ==> !HasObjectPermission(httpMethod, who, objAuthor)
    ensures httpMethod !in SAFE_METHODS && who.Authenticated? ==>
      (HasObjectPermission(httpMethod, who, objAuthor) <==> who.id == objAuthor || who.isStaff)
  {
    httpMethod in SAFE_METHODS || (who.Authenticated? && (who.id == objAuthor || who.isStaff))
  }

  /** The requester an account becomes once logged in. */
  function AsRequester(id: UserId, u: User): (r: Requester)
    ensures r.Authenticated? && r.id == id && r.isStaff == u.isStaff
  {
    Authenticated(id, u.isStaff)
  }

  /** The check reads the staff flag and not the role: an account whose
      role is 'admin' (so `is_admin` holds) but that is not staff may not
      change another author's recipe. */
  lemma AdminRoleIsNotStaff(id: UserId, u: User, author: UserId, httpMethod: string)
    requires u.role == ADMIN && !u.isStaff && id != author && httpMethod !in SAFE_METHODS
    ensures IsAdmin(u)
    ensures !HasObjectPermission(httpMethod, AsRequester(id, u), author)
  {
  }
}
