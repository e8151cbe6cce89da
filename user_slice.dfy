/**
 * The frontend's user slice: the loaded profile, the loaded accounts, a
 * loading flag and an error. Each reducer assigns its own field(s) in place
 * and leaves the rest as they were.
 */
module UserSlice {
  import opened Common
  import opened Domain

  /** The UserProfile interface of the frontend (dates as the API's strings). */
  datatype UserProfile = UserProfile(
    id: string, email: string, firstName: string, lastName: string, phoneNumber: Option<string>,
    dateOfBirth: Option<string>, address: Option<string>, role: string, isActive: bool,
    lastLogin: Option<string>, createdAt: string, updatedAt: string)

  /** The Account interface of the frontend (the balance as the API's decimal string). */
  datatype AccountInfo = AccountInfo(
    id: string, accountNumber: string, accountType: AccountType, balance: string, currency: string,
    isActive: bool, createdAt: string, updatedAt: string)

  class UserStore {
    var profile: Option<UserProfile>
    var accounts: seq<AccountInfo>
    var loading: bool
    var error: Option<string>

    /** initialState: nothing loaded, not loading, no error. */
    constructor ()
      ensures profile.None? && accounts == [] && !loading && error.None?
    {
      profile := None;
      accounts := [];
      loading := false;
      error := None;
    }

    /** setProfile: only the profile changes. */
    method SetProfile(p: UserProfile)
      modifies this`profile
      ensures profile == Some(p)
    {
      profile := Some(p);
    }

    /** setAccounts: only the accounts change. */
    method SetAccounts(list: seq<AccountInfo>)
      modifies this`accounts
      ensures accounts == list
    {
      accounts := list;
    }

    /** setLoading: only the loading flag changes. */
    method SetLoading(value: bool)
      modifies this`loading
      ensures loading == value
    {
      loading := value;
    }

    /** setError: only the error changes. */
    method SetError(value: Option<string>)
      modifies this`error
      ensures error == value
    {
      error := value;
    }

    /** clearUser: drop the profile, the accounts and the error; the loading flag stays. */
    method ClearUser()
      modifies this`profile, this`accounts, this`error
      ensures profile.None? && accounts == [] && error.None?
      ensures loading == old(loading)
    {
      profile := None;
      accounts := [];
      error := None;
    }
  }
}
