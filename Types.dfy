/** The shared record and enumeration types of the user admin screen
    (src/shared/types/types.ts), plus the abstract outcomes that stand in
    for the HTTP calls the application makes. */
module Types {

  datatype Option<+T> = None | Some(value: T)

  /** A user record as the remote collection returns it. */
  datatype User = User(
    id: int,
    photo: string,
    name: string,
    username: string,
    email: string,
    phone: string,
    zipcode: string)

  /** The body of a create request: a user without `id`, `photo` optional. */
  datatype NewUser = NewUser(
    name: string,
    username: string,
    email: string,
    phone: string,
    zipcode: string,
    photo: Option<string>)

  /** 'id' | 'name' | 'zipcode' */
  datatype SortField = ById | ByName | ByZipcode

  /** 'asc' | 'desc' */
  datatype SortOrder = Asc | Desc

  datatype Sort = Sort(field: SortField, order: SortOrder)

  /** 'name' | 'email' | 'phone' */
  datatype FilterField = NameFilter | EmailFilter | PhoneFilter

  datatype Filter = Filter(name: string, email: string, phone: string)

  /** How a request without a useful response body (POST, DELETE fan-out) ended. */
  datatype Outcome = Success | Failure

  /** How a request whose response body is used (GET) ended. */
  datatype Response<+T> = Ok(data: T) | Fail

  /** One query parameter, in the order it was appended. */
  type Param = (string, string)

  /** A request the client puts on the network. */
  datatype Request =
    | Get(params: seq<Param>)
    | Post(body: NewUser)
    | Delete(id: int)

  function SortFieldName(f: SortField): string
  {
    match f
    case ById => "id"
    case ByName => "name"
    case ByZipcode => "zipcode"
  }

  function SortOrderName(o: SortOrder): string
  {
    match o
    case Asc => "asc"
    case Desc => "desc"
  }

  function ParseSortField(s: string): (r: Option<SortField>)
    ensures forall f :: r == Some(f) <==> SortFieldName(f) == s
  {
    if s == "id" then Some(ById)
    else if s == "name" then Some(ByName)
    else if s == "zipcode" then Some(ByZipcode)
    else None
  }

  function ParseSortOrder(s: string): (r: Option<SortOrder>)
    ensures forall o :: r == Some(o) <==> SortOrderName(o) == s
  {
    if s == "asc" then Some(Asc)
    else if s == "desc" then Some(Desc)
    else None
  }

  function UserIds(users: seq<User>): (ids: seq<int>)
    ensures |ids| == |users|
    ensures forall i :: 0 <= i < |users| ==> ids[i] == users[i].id
  {
    seq(|users|, i requires 0 <= i < |users| => users[i].id)
  }
}
