/** `resolveRecipients` of `src/notifications/notification-dispatch.service.ts`: who a notification goes to. */
module Recipients {
  import opened Text

  datatype Recipient = Recipient(email: Option<string>, userId: Option<string>)

  datatype Resolved = Resolved(email: string, userId: Option<string>)

  /** The recipient's own address or else the one of the user, when there is one. */
  function AddressOf(r: Recipient, users: map<string, string>): Option<string> {
    if IsGiven(r.email) then r.email
    else if IsGiven(r.userId) && r.userId.value in users && users[r.userId.value] != "" then Some(users[r.userId.value])
    else None
  }

  /** An address of its own goes before the one of the user, and an empty one is none. */
  lemma OneRecipient(email: Option<string>, userId: Option<string>, users: map<string, string>)
    ensures var r := ResolvedFrom([Recipient(email, userId)], users);
            && (email.Some? && email.value != "" ==> r == [Resolved(email.value, userId)])
            && ((email == None || email == Some("")) ==>
                  if userId.Some? && userId.value != "" && userId.value in users && users[userId.value] != ""
                  then r == [Resolved(users[userId.value], userId)] else r == [])
  {
    var to := [Recipient(email, userId)];
    assert to[..0] == [] && ResolvedFrom([], users) == [];
  }

  predicate HasKey(resolved: seq<Resolved>, key: string) {
    exists i | 0 <= i < |resolved| :: ToLower(resolved[i].email) == key
  }

  function ResolvedFrom(to: seq<Recipient>, users: map<string, string>): seq<Resolved> {
    if to == [] then []
    else
      var before := ResolvedFrom(to[..|to| - 1], users);
      var address := AddressOf(to[|to| - 1], users);
      if address == None || HasKey(before, ToLower(address.value)) then before
      else before + [Resolved(address.value, to[|to| - 1].userId)]
  }

  /** `findUserEmails` answers for the ids it was asked about. */
  method FindUserEmails(users: map<string, string>, ids: set<string>) returns (emails: map<string, string>)
    ensures emails == map id | id in users && id in ids :: users[id]
  {
    emails := map id | id in users && id in ids :: users[id];
  }

  method ResolveRecipients(to: seq<Recipient>, users: map<string, string>) returns (resolved: seq<Resolved>)
    ensures resolved == ResolvedFrom(to, users)
  {
    hide ToLower;
    var userIdsToResolve := set i | 0 <= i < |to| && !IsGiven(to[i].email) && IsGiven(to[i].userId) ::
      to[i].userId.value;
    var emailByUserId := FindUserEmails(users, userIdsToResolve);
    var seen: set<string> := {};
    resolved := [];
    for k := 0 to |to|
      invariant resolved == ResolvedFrom(to[..k], users)
      invariant forall key :: key in seen <==> HasKey(resolved, key)
    {
      assert to[..k + 1][..k] == to[..k];
      var recipient := to[k];
      var email := recipient.email;
      if !IsGiven(email) && IsGiven(recipient.userId) {
        email := if recipient.userId.value in emailByUserId then Some(emailByUserId[recipient.userId.value]) else None;
      }
      assert AddressOf(recipient, users) == if IsGiven(email) then email else None;
      if !IsGiven(email) { continue; }
      var key := ToLower(email.value);
      if key in seen { continue; }
      seen := seen + {key};
      KeyOneMore(resolved, Resolved(email.value, recipient.userId));
      resolved := resolved + [Resolved(email.value, recipient.userId)];
    }
    assert to[..|to|] == to;
  }

  lemma KeyOneMore(resolved: seq<Resolved>, r: Resolved)
    ensures forall key :: HasKey(resolved + [r], key) <==> HasKey(resolved, key) || key == ToLower(r.email)
  {
    hide ToLower;
    var more := resolved + [r];
    forall key ensures HasKey(more, key) <==> HasKey(resolved, key) || key == ToLower(r.email) {
      assert more[|resolved|] == r;
      if i :| 0 <= i < |resolved| && ToLower(resolved[i].email) == key { assert more[i] == resolved[i]; }
    }
  }

  ghost predicate IsReached(to: seq<Recipient>, users: map<string, string>, key: string) {
    exists i | 0 <= i < |to| :: AddressOf(to[i], users).Some? && ToLower(AddressOf(to[i], users).value) == key
  }

  /** `r` comes from the first recipient that has its address, whatever the letter case. */
  ghost predicate IsFirstOfKey(to: seq<Recipient>, users: map<string, string>, r: Resolved) {
    exists i | 0 <= i < |to| ::
      && AddressOf(to[i], users) == Some(r.email) && to[i].userId == r.userId
      && !IsReached(to[..i], users, ToLower(r.email))
  }

  ghost predicate EachOnce(to: seq<Recipient>, users: map<string, string>, r: seq<Resolved>) {
    && (forall i, j | 0 <= i < j < |r| :: ToLower(r[i].email) != ToLower(r[j].email))
    && (forall key :: HasKey(r, key) <==> IsReached(to, users, key))
    && (forall i | 0 <= i < |r| :: IsFirstOfKey(to, users, r[i]))
  }

  /** Every address that some recipient has is written to exactly once, whatever its letter case, and nobody
      else is: one row, and so one job, per address. */
  lemma {:induction false} EachAddressOnce(to: seq<Recipient>, users: map<string, string>)
    ensures EachOnce(to, users, ResolvedFrom(to, users))
  {
    if to != [] {
      hide ToLower, AddressOf, IsFirstOfKey, IsReached;
      var n := |to| - 1;
      var before := ResolvedFrom(to[..n], users);
      EachAddressOnce(to[..n], users);
      var address := AddressOf(to[n], users);
      ReachedOneMore(to, users);
      forall i | 0 <= i < |before| ensures IsFirstOfKey(to, users, before[i]) {
        assert IsFirstOfKey(to[..n], users, before[i]);
        StaysFirst(to, users, before[i]);
      }
      if address.Some? && !HasKey(before, ToLower(address.value)) {
        KeyOneMore(before, Resolved(address.value, to[n].userId));
        NewIsFirst(to, users);
        forall i | 0 <= i < |before| ensures ToLower(before[i].email) != ToLower(address.value) {
          assert HasKey(before, ToLower(before[i].email));
        }
      }
    }
  }

  lemma ReachedOneMore(to: seq<Recipient>, users: map<string, string>)
    requires to != []
    ensures var address := AddressOf(to[|to| - 1], users);
            forall key :: IsReached(to, users, key) <==>
                          IsReached(to[..|to| - 1], users, key) || (address.Some? && ToLower(address.value) == key)
  {
    hide ToLower, AddressOf;
    var n := |to| - 1;
    assert forall i | 0 <= i < n :: to[..n][i] == to[i];
  }

  lemma NewIsFirst(to: seq<Recipient>, users: map<string, string>)
    requires to != [] && AddressOf(to[|to| - 1], users).Some?
    requires !IsReached(to[..|to| - 1], users, ToLower(AddressOf(to[|to| - 1], users).value))
    ensures IsFirstOfKey(to, users, Resolved(AddressOf(to[|to| - 1], users).value, to[|to| - 1].userId))
  {
    hide ToLower, AddressOf, IsReached;
  }

  lemma StaysFirst(to: seq<Recipient>, users: map<string, string>, r: Resolved)
    requires to != [] && IsFirstOfKey(to[..|to| - 1], users, r)
    ensures IsFirstOfKey(to, users, r)
  {
    hide ToLower, AddressOf, IsReached;
    var n := |to| - 1;
    var i :| 0 <= i < n && AddressOf(to[..n][i], users) == Some(r.email) && to[..n][i].userId == r.userId
      && !IsReached(to[..n][..i], users, ToLower(r.email));
    assert to[..n][..i] == to[..i];
  }
}
