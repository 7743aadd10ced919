/** The user creation dialog (src/widgets/user-form/UserForm.tsx) as a state
    machine: its state hooks are the fields of a class, its effects and
    handlers are methods, and `addUser` is the coordinator's method. */
module UserForm {
  import opened Types
  import opened Text
  import opened FormValidation
  import opened Query
  import opened UserContext

  /** The body `handleSubmit` hands to `addUser`: the five fields as typed
      and the avatar derived from the name. */
  function Payload(f: FormFields): (u: NewUser)
    ensures u.name == f.name && u.username == f.username && u.email == f.email
    ensures u.phone == f.phone && u.zipcode == f.zipcode
    ensures u.photo.Some? && |u.photo.value| == |AvatarPrefix| + 1
    ensures u.photo.Some? && u.photo.value[..|AvatarPrefix|] == AvatarPrefix
  {
    NewUser(f.name, f.username, f.email, f.phone, f.zipcode, Some(AvatarUrl(f.name)))
  }

  /** A form is accepted exactly when every rule passes: name and username
      not blank, the email of the accepted shape and the phone a filled mask. */
  lemma NoErrorsIff(f: FormFields)
    ensures ValidationErrors(f) == map[] <==>
      && !AllSpace(f.name) && !AllSpace(f.username)
      && !AllSpace(f.email) && EmailShape(f.email)
      && !AllSpace(f.phone) && (exists d :: |d| == 10 && AllDigits(d) && f.phone == MaskedPhone(d))
  {
    ValidationKeys(f, f.zipcode);
    RequiredFieldRules(f);
    EmailRule(f);
    PhoneRule(f);
    var e := ValidationErrors(f);
    assert forall k :: k in e.Keys ==> k in ErrorKeys;
  }

  class Form {
    /** The coordinator whose `addUser` the form calls. */
    const store: UserStore
    /** The `open` prop, owned by the dialog's parent. */
    var open: bool
    /** The five controlled inputs (one state hook each). */
    var fields: FormFields
    var submitting: bool
    var formErrors: map<Field, string>
    var isSubmitted: bool

    /** The errors shown: none before the first submit, and from then on
        always those of the current fields. */
    predicate ErrorsCurrent()
      reads this
    {
      formErrors == if isSubmitted then ValidationErrors(fields) else map[]
    }

    ghost predicate Valid()
      reads this, store
    {
      store.Valid() && !submitting && ErrorsCurrent()
    }

    /** `submitting || hasErrors` on the submit button. */
    function SubmitDisabled(): (disabled: bool)
      reads this
      requires ErrorsCurrent()
      ensures !submitting ==> (disabled <==> isSubmitted && ValidationErrors(fields) != map[])
    {
      submitting || |formErrors| > 0
    }

    /** The dialog mounted closed, with empty fields and no errors. */
    constructor (store: UserStore)
      requires store.Valid()
      ensures Valid() && this.store == store
      ensures !open && fields == FormFields("", "", "", "", "")
      ensures formErrors == map[] && !isSubmitted
    {
      this.store := store;
      open := false;
      fields := FormFields("", "", "", "", "");
      submitting := false;
      formErrors := map[];
      isSubmitted := false;
    }

    /** The parent sets `open`; the effect on `open` resets the form only
        when it changes from closed to open. */
    method Open()
      requires Valid()
      modifies this`open, this`fields, this`formErrors, this`isSubmitted
      ensures Valid() && open
      ensures old(open) ==> fields == old(fields) && formErrors == old(formErrors) && isSubmitted == old(isSubmitted)
      ensures !old(open) ==> fields == FormFields("", "", "", "", "") && formErrors == map[] && !isSubmitted
    {
      if !open {
        fields := FormFields("", "", "", "", "");
        formErrors := map[];
        isSubmitted := false;
      }
      open := true;
    }

    /** `onClose`: the parent closes the dialog; the fields are kept until
        the next opening. */
    method Close()
      requires Valid()
      modifies this`open
      ensures Valid() && !open
    {
      open := false;
    }

    /** An input's `onChange`, followed by the re-validation effect, which
        depends on name, username, email, phone and `isSubmitted` (not on
        the zipcode). */
    method SetField(key: Field, value: string)
      requires Valid()
      modifies this`fields, this`formErrors
      ensures Valid()
      ensures fields == match key
        case NameField => old(fields).(name := value)
        case UsernameField => old(fields).(username := value)
        case EmailField => old(fields).(email := value)
        case PhoneField => old(fields).(phone := value)
        case ZipcodeField => old(fields).(zipcode := value)
      ensures formErrors == if isSubmitted then ValidationErrors(fields) else map[]
    {
      match key {
        case NameField => fields := fields.(name := value);
        case UsernameField => fields := fields.(username := value);
        case EmailField => fields := fields.(email := value);
        case PhoneField => fields := fields.(phone := value);
        case ZipcodeField =>
          ValidationKeys(fields, value);
          fields := fields.(zipcode := value);
      }
      if isSubmitted && key != ZipcodeField {
        formErrors := Validate(fields);
      }
    }

    /** `handleSubmit`: validate and show the errors; when there are none,
        post the payload, close on success and stay open on failure. */
    method HandleSubmit(post: Outcome, refetch: Response<seq<User>>) returns (added: bool)
      requires Valid()
      modifies this`isSubmitted, this`formErrors, this`submitting, this`open
      modifies store`users, store`loading, store`error, store`sent
      ensures Valid()
      ensures isSubmitted && formErrors == ValidationErrors(fields)
      ensures added <==> ValidationErrors(fields) == map[] && post == Success
      ensures open == (old(open) && !added)
      ensures ValidationErrors(fields) != map[] ==>
        && store.sent == old(store.sent) && store.users == old(store.users)
        && store.loading == old(store.loading) && store.error == old(store.error)
      ensures ValidationErrors(fields) == map[] ==>
        store.sent == old(store.sent) + [Post(Payload(fields))]
                      + (if post == Success then [Get(QueryParams(store.debouncedFilter, store.sort))] else [])
      ensures added ==> store.users == (if refetch.Ok? then refetch.data else old(store.users))
      ensures added ==> store.error == (if refetch.Ok? then None else Some(LoadError)) && !store.loading
      ensures ValidationErrors(fields) == map[] && post == Failure ==>
        && store.users == old(store.users) && store.loading == old(store.loading)
        && store.error == Some(AddError)
    {
      isSubmitted := true;
      var errors := Validate(fields);
      formErrors := errors;
      if |errors| > 0 {
        added := false;
        return;
      }
      added := SendPayload(post, refetch);
    }

    /** The `try` block of `handleSubmit`: `submitting` is raised while
        `addUser` runs, and the dialog closes only when it succeeds. */
    method SendPayload(post: Outcome, refetch: Response<seq<User>>) returns (added: bool)
      requires store.Valid() && !submitting
      modifies this`submitting, this`open
      modifies store`users, store`loading, store`error, store`sent
      ensures store.Valid() && !submitting
      ensures added <==> post == Success
      ensures open == (old(open) && !added)
      ensures store.sent == old(store.sent) + [Post(Payload(fields))]
                            + (if added then [Get(QueryParams(store.debouncedFilter, store.sort))] else [])
      ensures added ==> store.users == (if refetch.Ok? then refetch.data else old(store.users))
      ensures added ==> store.error == (if refetch.Ok? then None else Some(LoadError)) && !store.loading
      ensures !added ==> store.users == old(store.users) && store.loading == old(store.loading)
      ensures !added ==> store.error == Some(AddError)
    {
      submitting := true;
      var photoUrl := AvatarUrl(fields.name);
      added := store.AddUser(NewUser(fields.name, fields.username, fields.email, fields.phone, fields.zipcode, Some(photoUrl)), post, refetch);
      if added {
        open := false;
      }
      submitting := false;
    }

    /** `handleKeyDown`: Enter in any input submits the form. */
    method HandleKeyDown(key: string, post: Outcome, refetch: Response<seq<User>>) returns (added: bool)
      requires Valid()
      modifies this`isSubmitted, this`formErrors, this`submitting, this`open
      modifies store`users, store`loading, store`error, store`sent
      ensures Valid()
      ensures key != "Enter" ==> !added && unchanged(this) && unchanged(store)
      ensures key == "Enter" ==> isSubmitted && formErrors == ValidationErrors(fields)
      ensures key == "Enter" ==> (added <==> ValidationErrors(fields) == map[] && post == Success)
      ensures key == "Enter" ==> open == (old(open) && !added)
      ensures key == "Enter" && ValidationErrors(fields) != map[] ==>
        && store.sent == old(store.sent) && store.users == old(store.users)
        && store.loading == old(store.loading) && store.error == old(store.error)
      ensures key == "Enter" && ValidationErrors(fields) == map[] ==>
        store.sent == old(store.sent) + [Post(Payload(fields))]
                      + (if post == Success then [Get(QueryParams(store.debouncedFilter, store.sort))] else [])
      ensures added ==> store.users == (if refetch.Ok? then refetch.data else old(store.users))
      ensures added ==> store.error == (if refetch.Ok? then None else Some(LoadError)) && !store.loading
      ensures key == "Enter" && ValidationErrors(fields) == map[] && post == Failure ==>
        && store.users == old(store.users) && store.loading == old(store.loading)
        && store.error == Some(AddError)
    {
      added := false;
      if key == "Enter" {
        added := HandleSubmit(post, refetch);
      }
    }
  }
}
