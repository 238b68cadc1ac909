/**
 * The authentication context every panel reads: the identity provider's
 * user, the profile (`userData`) loaded from that user's account document,
 * and the `loading` flag that holds back the application until the first
 * auth callback. It also creates the account document on sign-up and
 * removes the user's presence entry on log-out.
 */
module AuthContext {
  import opened Common
  import opened Firestore

  /** The account document `signUp` stores: role `Comunidad`, 0 points. */
  function NewAccount(displayName: string, email: string): (a: Account)
    ensures a.role == RoleCommunity && a.points == Some(0)
    ensures a.displayName == displayName && a.email == email
  {
    Account(displayName, email, RoleCommunity, Some(0))
  }

  /** The profile the auth callback derives: the uid plus the account's fields, if the account exists. */
  function ProfileOf(uid: Uid, users: map<Uid, Account>): (p: Option<UserData>)
    ensures p.Some? <==> uid in users
    ensures p.Some? ==> p.value.id == uid && p.value.data == users[uid]
  {
    if uid in users then Some(Doc(uid, users[uid])) else None
  }

  class AuthProvider {
    /** The identity provider's signed-in user, by uid. */
    var user: Option<Uid>
    var userData: Option<UserData>
    var loading: bool

    constructor ()
      ensures user.None? && userData.None? && loading
      ensures !RendersChildren()
    {
      user, userData, loading := None, None, true;
    }

    /** `{!loading && children}`. */
    predicate RendersChildren()
      reads this
    {
      !loading
    }

    /**
     * The `onAuthStateChanged` callback for `authUser` (None when signed
     * out); the account document is read from `store`, and `readOk` is
     * false when that read is rejected. A rejected read ends the callback
     * after the user is set: the profile and `loading` stay as they were.
     */
    method OnAuthStateChanged(authUser: Option<Uid>, store: Store, readOk: bool)
      modifies this
      ensures user == authUser
      ensures authUser.None? ==> userData.None? && RendersChildren()
      ensures authUser.Some? && readOk ==> userData == ProfileOf(authUser.value, store.users) && RendersChildren()
      ensures authUser.Some? && !readOk ==> userData == old(userData) && loading == old(loading)
    {
      if authUser.Some? {
        user := authUser;
        if !readOk {
          return;
        }
        var uid := authUser.value;
        if uid in store.users {
          userData := Some(Doc(uid, store.users[uid]));
        } else {
          userData := None;
        }
      } else {
        user := None;
        userData := None;
      }
      loading := false;
    }

    /**
     * `signUp(email, password, displayName)`. `issued` is the uid the
     * identity provider creates, or None when it refuses the credentials;
     * `accepted` is the backend's verdict on the account write.
     */
    method SignUp(store: Store, email: string, displayName: string, issued: Option<Uid>, accepted: bool)
      returns (ok: bool)
      requires store.Valid()
      modifies this, store
      ensures store.Valid()
      ensures user == old(user) && loading == old(loading)
      ensures ok <==> issued.Some? && accepted
      ensures ok ==>
        && store.Snapshot() == old(store.Snapshot()).(users := old(store.users)[issued.value := NewAccount(displayName, email)])
        && userData == Some(Doc(issued.value, NewAccount(displayName, email)))
      ensures !ok ==> store.Snapshot() == old(store.Snapshot()) && userData == old(userData)
    {
      if issued.None? {
        return false;
      }
      var uid := issued.value;
      var account := Account(displayName, email, RoleCommunity, Some(0));
      var batch := [SetAccount(uid, account)];
      ApplyBatchCons(store.Snapshot(), SetAccount(uid, account), []);
      assert [SetAccount(uid, account)] + [] == batch;
      ok := store.Commit(batch, accepted);
      if ok {
        userData := Some(Doc(uid, account));
      }
    }

    /**
     * `logOut`: the signed-in user's presence entry is removed first, and
     * only then does the user sign out; when the removal fails the error
     * propagates and the user stays signed in. The context's own fields are
     * cleared by the auth callback that follows.
     */
    method LogOut(presence: map<Uid, bool>, removeOk: bool) returns (after: map<Uid, bool>, signedOut: bool)
      ensures user.None? ==> after == presence && signedOut
      ensures user.Some? ==> signedOut == removeOk
      ensures user.Some? && removeOk ==> after == presence - {user.value}
      ensures user.Some? && !removeOk ==> after == presence
      ensures signedOut ==> user.None? || user.value !in after
    {
      after := presence;
      if user.Some? {
        if !removeOk {
          return presence, false;
        }
        after := presence - {user.value};
      }
      signedOut := true;
    }
  }

  /** The profile read back after a sign-up is the one `signUp` set locally. */
  lemma SignUpProfileMatchesStore(users: map<Uid, Account>, uid: Uid, displayName: string, email: string)
    ensures ProfileOf(uid, users[uid := NewAccount(displayName, email)]) == Some(Doc(uid, NewAccount(displayName, email)))
  {
  }
}
