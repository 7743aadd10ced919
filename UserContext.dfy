/** The user state coordinator (src/entities/user/model/UserContext.tsx):
    the `UserProvider` component's state hooks as the fields of a class, and
    its callbacks as methods. The HTTP calls are replaced by outcome
    parameters, and every request the provider would put on the network is
    appended to `sent`. */
module UserContext {
  import opened Types
  import opened Selection
  import opened Query

  const LoadError := "Не удалось загрузить пользователей"
  const AddError := "Не удалось добавить пользователя"
  const DeleteError := "Не удалось удалить пользователей"

  function FilterValue(f: Filter, field: FilterField): string
  {
    match field
    case NameFilter => f.name
    case EmailFilter => f.email
    case PhoneFilter => f.phone
  }

  /** `{ ...prev, [field]: value }` */
  function WithFilterField(f: Filter, field: FilterField, value: string): (r: Filter)
    ensures FilterValue(r, field) == value
    ensures forall g :: g != field ==> FilterValue(r, g) == FilterValue(f, g)
  {
    match field
    case NameFilter => f.(name := value)
    case EmailFilter => f.(email := value)
    case PhoneFilter => f.(phone := value)
  }

  /** One DELETE request per id, issued in the order of the ids. */
  function DeleteRequests(ids: seq<int>): (r: seq<Request>)
    ensures |r| == |ids|
    ensures forall k :: 0 <= k < |ids| ==> r[k] == Delete(ids[k])
  {
    if ids == [] then []
    else DeleteRequests(ids[..|ids| - 1]) + [Delete(ids[|ids| - 1])]
  }

  class UserStore {
    var users: seq<User>
    var loading: bool
    var error: Option<string>
    var selectedUsers: seq<int>
    var sort: Sort
    var filter: Filter
    /** The filter value the debounce hook last let through. */
    var debouncedFilter: Filter
    /** Every request put on the network, oldest first. */
    var sent: seq<Request>
    /** Every value the raw filter has had, the current one last. */
    ghost var filterHistory: seq<Filter>

    ghost predicate Valid()
      reads this
    {
      && NoDup(selectedUsers)
      && filterHistory != []
      && filterHistory[|filterHistory| - 1] == filter
      && debouncedFilter in filterHistory
    }

    /** The provider's initial state, before its mount effect runs. */
    constructor ()
      ensures Valid()
      ensures users == [] && !loading && error == None && selectedUsers == []
      ensures sort == Sort(ByName, Asc)
      ensures filter == Filter("", "", "") && debouncedFilter == filter
      ensures sent == []
    {
      users := [];
      loading := false;
      error := None;
      selectedUsers := [];
      sort := Sort(ByName, Asc);
      filter := Filter("", "", "");
      debouncedFilter := Filter("", "", "");
      sent := [];
      filterHistory := [Filter("", "", "")];
    }

    method ToggleSelect(id: int)
      requires Valid()
      modifies this`selectedUsers
      ensures Valid()
      ensures selectedUsers == Toggled(old(selectedUsers), id)
    {
      ToggledNoDup(selectedUsers, id);
      selectedUsers := Toggled(selectedUsers, id);
    }

    /** `setFilter`: the raw filter changes at once; the request waits for
        the debounce. */
    method SetFilter(field: FilterField, value: string)
      requires Valid()
      modifies this`filter, this`filterHistory
      ensures Valid()
      ensures filter == WithFilterField(old(filter), field, value)
    {
      filter := WithFilterField(filter, field, value);
      filterHistory := filterHistory + [filter];
    }

    /** The debounce window elapsed with no further change: the current raw
        filter becomes the one requests are built from. */
    method DebounceElapsed()
      requires Valid()
      modifies this`debouncedFilter
      ensures Valid()
      ensures debouncedFilter == filter
    {
      debouncedFilter := filter;
    }

    method SetSort(field: SortField, order: SortOrder)
      requires Valid()
      modifies this`sort
      ensures Valid()
      ensures sort == Sort(field, order)
    {
      sort := Sort(field, order);
    }

    /** The synchronous part of `fetchUsers`, up to the awaited GET. */
    method BeginFetch()
      requires Valid()
      modifies this`loading, this`error, this`sent
      ensures Valid()
      ensures loading && error == None
      ensures sent == old(sent) + [Get(QueryParams(debouncedFilter, sort))]
    {
      loading := true;
      error := None;
      var params := BuildParams(debouncedFilter, sort);
      sent := sent + [Get(params)];
    }

    /** The rest of `fetchUsers`, once the GET has answered. */
    method CompleteFetch(response: Response<seq<User>>)
      requires Valid()
      modifies this`users, this`loading, this`error
      ensures Valid()
      ensures !loading
      ensures users == if response.Ok? then response.data else old(users)
      ensures error == if response.Ok? then old(error) else Some(LoadError)
    {
      match response {
        case Ok(data) => users := data;
        case Fail => error := Some(LoadError);
      }
      loading := false;
    }

    /** `fetchUsers`, run on mount and whenever the sort or the debounced
        filter changes. */
    method FetchUsers(response: Response<seq<User>>)
      requires Valid()
      modifies this`users, this`loading, this`error, this`sent
      ensures Valid()
      ensures !loading
      ensures users == if response.Ok? then response.data else old(users)
      ensures error == if response.Ok? then None else Some(LoadError)
      ensures sent == old(sent) + [Get(QueryParams(debouncedFilter, sort))]
    {
      BeginFetch();
      CompleteFetch(response);
    }

    /** `addUser`: posts the payload as given; on success refetches (never
        appends locally), on failure records the error and reports it. */
    method AddUser(payload: NewUser, post: Outcome, refetch: Response<seq<User>>) returns (ok: bool)
      requires Valid()
      modifies this`users, this`loading, this`error, this`sent
      ensures Valid()
      ensures ok <==> post == Success
      ensures ok ==> sent == old(sent) + [Post(payload), Get(QueryParams(debouncedFilter, sort))]
      ensures ok ==> users == (if refetch.Ok? then refetch.data else old(users))
      ensures ok ==> error == (if refetch.Ok? then None else Some(LoadError)) && !loading
      ensures !ok ==> sent == old(sent) + [Post(payload)]
      ensures !ok ==> users == old(users) && loading == old(loading) && error == Some(AddError)
    {
      sent := sent + [Post(payload)];
      if post == Success {
        ghost var posted := sent;
        FetchUsers(refetch);
        assert sent == posted + [Get(QueryParams(debouncedFilter, sort))];
        ok := true;
      } else {
        error := Some(AddError);
        ok := false;
      }
    }

    /** `deleteUsers`: one DELETE per id; only if all succeed is the
        selection emptied and the list refetched. */
    method DeleteUsers(ids: seq<int>, outcome: Outcome, refetch: Response<seq<User>>) returns (ok: bool)
      requires Valid()
      modifies this`users, this`loading, this`error, this`sent, this`selectedUsers
      ensures Valid()
      ensures ok <==> outcome == Success
      ensures ok ==> selectedUsers == [] && sent == old(sent) + DeleteRequests(ids) + [Get(QueryParams(debouncedFilter, sort))]
      ensures ok ==> users == (if refetch.Ok? then refetch.data else old(users))
      ensures ok ==> error == (if refetch.Ok? then None else Some(LoadError)) && !loading
      ensures !ok ==> selectedUsers == old(selectedUsers) && sent == old(sent) + DeleteRequests(ids)
      ensures !ok ==> users == old(users) && loading == old(loading) && error == Some(DeleteError)
    {
      var i := 0;
      while i < |ids|
        invariant 0 <= i <= |ids|
        invariant sent == old(sent) + DeleteRequests(ids[..i])
        modifies this`sent
      {
        assert ids[..i + 1][..i] == ids[..i];
        sent := sent + [Delete(ids[i])];
        i := i + 1;
      }
      assert ids[..i] == ids;
      if outcome == Success {
        selectedUsers := [];
        ghost var issued := sent;
        FetchUsers(refetch);
        assert sent == issued + [Get(QueryParams(debouncedFilter, sort))];
        ok := true;
      } else {
        error := Some(DeleteError);
        ok := false;
      }
    }
  }
}
