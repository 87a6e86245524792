/**
 * Target collection (TelegramSender.collect_targets): the contacts that are
 * users, followed by the user peers of the open dialogs that are not yet in
 * the list.
 */
module Targets {

  import opened Wrappers
  import opened TelegramConfig
  import opened Sequences

  /**
   * An entity of the platform as the client library returns it. Python's `in`
   * compares these objects by equality of all their attributes, so two
   * entities are the same target exactly when all their fields agree; `more`
   * stands for the attributes the core does not read by name.
   */
  datatype Peer =
    | User(id: int, firstName: string, username: string, more: Attributes)
    | Chat(id: int, title: string, more: Attributes)
    | Channel(id: int, title: string, more: Attributes)

  /** The remaining attributes of an entity, as name and value. */
  type Attributes = seq<(string, string)>

  /** The answer of one listing call: the entities, or an exception. */
  datatype Fetch = Fetched(items: seq<Peer>) | FetchFailed

  /** No entity occurs twice. */
  predicate Distinct(ps: seq<Peer>) {
    forall j, k :: 0 <= j < k < |ps| ==> ps[j] != ps[k]
  }

  /** The list comprehension that keeps the contacts that are users. */
  function Users(ps: seq<Peer>): (us: seq<Peer>)
    ensures forall k :: 0 <= k < |us| ==> us[k].User?
    ensures forall p: Peer :: p.User? ==> multiset(us)[p] == multiset(ps)[p]
    ensures Subsequence(us, ps)
  {
    if ps == [] then []
    else
      assert ps == [ps[0]] + ps[1..];
      var rest := Users(ps[1..]);
      if ps[0].User? then [ps[0]] + rest else rest
  }

  /**
   * The dialog loop, from the list `acc` built so far. It only appends, and it
   * appends nothing when messaging users is off.
   */
  function AddDialogPeers(acc: seq<Peer>, dialogs: seq<Peer>, toUsers: bool): (r: seq<Peer>)
    ensures |acc| <= |r| && r[..|acc|] == acc
    ensures !toUsers ==> r == acc
    decreases |dialogs|
  {
    if dialogs == [] then acc
    else
      var entity := dialogs[0];
      var acc' := if entity.User? && toUsers && entity !in acc then acc + [entity] else acc;
      var r := AddDialogPeers(acc', dialogs[1..], toUsers);
      assert r[..|acc|] == r[..|acc'|][..|acc|];
      r
  }

  /** The position of the first occurrence of `p` in `ps`, or |ps| when it does not occur. */
  function FirstIndex(p: Peer, ps: seq<Peer>): (i: nat)
    ensures i <= |ps|
    ensures p in ps ==> i < |ps| && ps[i] == p && p !in ps[..i]
    ensures p !in ps ==> i == |ps|
    decreases |ps|
  {
    if ps == [] then 0
    else if ps[0] == p then 0
    else
      var j := FirstIndex(p, ps[1..]);
      assert ps == [ps[0]] + ps[1..];
      assert ps[..j + 1] == [ps[0]] + ps[1..][..j];
      j + 1
  }

  /** The contribution of the contact list, or None when fetching it raised. */
  function ContactPart(cfg: Config, contacts: Fetch): Option<seq<Peer>>
  {
    if !cfg.messageToContacts then Some([])
    else if contacts.FetchFailed? then None
    else Some(Users(contacts.items))
  }

  /**
   * The list collect_targets returns. One try block covers both listings, so
   * a failing contact list ends the collection before the dialogs are fetched,
   * and a failing dialog list leaves what the contacts gave.
   */
  function Collect(cfg: Config, contacts: Fetch, dialogs: Fetch): (r: seq<Peer>)
    ensures forall k :: 0 <= k < |r| ==> r[k].User?
  {
    match ContactPart(cfg, contacts)
    case None => []
    case Some(front) =>
      if dialogs.FetchFailed? then front
      else
        var r := AddDialogPeers(front, dialogs.items, cfg.messageToUsers);
        DialogAdded(front, dialogs.items, cfg.messageToUsers);
        assert forall k :: 0 <= k < |front| ==> r[k] == r[..|front|][k];
        r
  }

  /** collect_targets, building the list in place as the source does. */
  method CollectTargets(cfg: Config, contacts: Fetch, dialogs: Fetch) returns (targets: seq<Peer>)
    ensures targets == Collect(cfg, contacts, dialogs)
  {
    targets := [];
    if cfg.messageToContacts {
      if contacts.FetchFailed? {
        return;
      }
      targets := targets + Users(contacts.items);
      assert targets == Users(contacts.items);
    }
    if dialogs.FetchFailed? {
      return;
    }
    targets := AddDialogUsers(targets, dialogs.items, cfg.messageToUsers);
  }

  /** The dialog loop of collect_targets, appending to `acc`. */
  method AddDialogUsers(acc: seq<Peer>, dialogs: seq<Peer>, toUsers: bool) returns (targets: seq<Peer>)
    ensures targets == AddDialogPeers(acc, dialogs, toUsers)
  {
    targets := acc;
    var i := 0;
    while i < |dialogs|
      invariant 0 <= i <= |dialogs|
      invariant AddDialogPeers(targets, dialogs[i..], toUsers) == AddDialogPeers(acc, dialogs, toUsers)
    {
      var entity := dialogs[i];
      AddDialogPeersStep(targets, dialogs, i, toUsers);
      if entity.User? && toUsers {
        if entity !in targets {
          targets := targets + [entity];
        }
      }
      i := i + 1;
    }
  }

  /** One turn of the dialog loop, at index `i` of the dialog list. */
  lemma AddDialogPeersStep(acc: seq<Peer>, dialogs: seq<Peer>, i: nat, toUsers: bool)
    requires i < |dialogs|
    ensures var entity := dialogs[i];
      var acc' := if entity.User? && toUsers && entity !in acc then acc + [entity] else acc;
      AddDialogPeers(acc, dialogs[i..], toUsers) == AddDialogPeers(acc', dialogs[i + 1..], toUsers)
  {
    assert dialogs[i..][1..] == dialogs[i + 1..];
  }

  /**
   * What the dialog loop adds to `acc`: it keeps `acc` as a prefix, appends only
   * users of the dialog list that are not already present (so it never creates a
   * duplicate), appends them in dialog order, misses none, and appends nothing
   * when messaging users is off.
   */
  lemma DialogPeersShape(acc: seq<Peer>, dialogs: seq<Peer>, toUsers: bool)
    ensures var r := AddDialogPeers(acc, dialogs, toUsers);
      && |acc| <= |r| && r[..|acc|] == acc
      && (forall k :: |acc| <= k < |r| ==> r[k].User? && r[k] in dialogs && r[k] !in r[..k])
      && Subsequence(r[|acc|..], dialogs)
      && FirstOrdered(r, |acc|, dialogs)
      && (toUsers ==> forall p :: p in dialogs && p.User? ==> p in r)
      && (!toUsers ==> r == acc)
  {
    DialogAdded(acc, dialogs, toUsers);
    DialogOrder(acc, dialogs, toUsers);
    DialogFirstOrder(acc, dialogs, toUsers);
    DialogComplete(acc, dialogs, toUsers);
  }

  /** Every appended entity is a user of the dialog list that was not yet in the list. */
  lemma {:induction false} DialogAdded(acc: seq<Peer>, dialogs: seq<Peer>, toUsers: bool)
    ensures var r := AddDialogPeers(acc, dialogs, toUsers);
      |acc| <= |r| && forall k :: |acc| <= k < |r| ==> r[k].User? && r[k] in dialogs && r[k] !in r[..k]
    decreases |dialogs|
  {
    if dialogs != [] {
      var entity := dialogs[0];
      var acc' := if entity.User? && toUsers && entity !in acc then acc + [entity] else acc;
      DialogAdded(acc', dialogs[1..], toUsers);
      var r := AddDialogPeers(acc', dialogs[1..], toUsers);
      assert dialogs == [entity] + dialogs[1..];
      forall k | |acc| <= k < |r|
        ensures r[k].User? && r[k] in dialogs && r[k] !in r[..k]
      {
        if k >= |acc'| {
          assert r[k] in dialogs[1..];
        } else {
          assert r[..k] == r[..|acc'|][..k];
        }
      }
    }
  }

  /** The appended entities come in dialog order. */
  lemma {:induction false} DialogOrder(acc: seq<Peer>, dialogs: seq<Peer>, toUsers: bool)
    ensures var r := AddDialogPeers(acc, dialogs, toUsers);
      |acc| <= |r| && Subsequence(r[|acc|..], dialogs)
    decreases |dialogs|, 1
  {
    if dialogs != [] {
      DialogOrderStep(acc, dialogs, toUsers);
    }
  }

  lemma {:induction false} DialogOrderStep(acc: seq<Peer>, dialogs: seq<Peer>, toUsers: bool)
    requires dialogs != []
    ensures var r := AddDialogPeers(acc, dialogs, toUsers);
      |acc| <= |r| && Subsequence(r[|acc|..], dialogs)
    decreases |dialogs|, 0
  {
    var entity := dialogs[0];
    var acc' := if entity.User? && toUsers && entity !in acc then acc + [entity] else acc;
    DialogOrder(acc', dialogs[1..], toUsers);
    var r := AddDialogPeers(acc', dialogs[1..], toUsers);
    assert AddDialogPeers(acc, dialogs, toUsers) == r;
    if acc' == acc {
      SubsequenceDrop(r[|acc|..], dialogs);
    } else {
      assert r[|acc|..] == [entity] + r[|acc'|..];
      assert r[|acc|..][0] == dialogs[0];
      assert r[|acc|..][1..] == r[|acc'|..];
    }
  }

  /** The entities of `r` from index `from` on occur in `ps`, in the order of their first occurrence there. */
  predicate FirstOrdered(r: seq<Peer>, from: nat, ps: seq<Peer>) {
    && (forall k :: from <= k < |r| ==> FirstIndex(r[k], ps) < |ps|)
    && (forall j, k :: from <= j < k < |r| ==> FirstIndex(r[j], ps) < FirstIndex(r[k], ps))
  }

  /**
   * The appended entities come in the order of their first occurrence in the
   * dialog list: a repeated dialog entity is added where it first appears.
   */
  lemma {:induction false} DialogFirstOrder(acc: seq<Peer>, dialogs: seq<Peer>, toUsers: bool)
    ensures FirstOrdered(AddDialogPeers(acc, dialogs, toUsers), |acc|, dialogs)
    decreases |dialogs|, 1
  {
    if dialogs != [] {
      DialogFirstOrderStep(acc, dialogs, toUsers);
    }
  }

  lemma {:induction false} DialogFirstOrderStep(acc: seq<Peer>, dialogs: seq<Peer>, toUsers: bool)
    requires dialogs != []
    ensures FirstOrdered(AddDialogPeers(acc, dialogs, toUsers), |acc|, dialogs)
    decreases |dialogs|, 0
  {
    var e := dialogs[0];
    var acc2 := if e.User? && toUsers && e !in acc then acc + [e] else acc;
    var r := AddDialogPeers(acc2, dialogs[1..], toUsers);
    assert AddDialogPeers(acc, dialogs, toUsers) == r;
    DialogFirstOrder(acc2, dialogs[1..], toUsers);
    assert FirstOrdered(r, |acc2|, dialogs[1..]);
    LaterNotHead(acc, acc2, dialogs, toUsers, r);
    forall k | |acc| <= k < |r| ensures FirstIndex(r[k], dialogs) < |dialogs| {
      if k < |acc2| {
        assert r[k] == acc2[k] == e;
      } else {
        FirstIndexTail(r[k], dialogs);
      }
    }
    forall j, k | |acc| <= j < k < |r| ensures FirstIndex(r[j], dialogs) < FirstIndex(r[k], dialogs) {
      assert |acc2| <= k < |r|;
      FirstIndexTail(r[k], dialogs);
      if j < |acc2| {
        assert r[j] == acc2[j] == e;
      } else {
        FirstIndexTail(r[j], dialogs);
      }
    }
  }

  /**
   * No entity the dialog loop appends after its first turn (given as `r`) is the
   * head of the dialog list.
   */
  lemma LaterNotHead(acc: seq<Peer>, acc2: seq<Peer>, dialogs: seq<Peer>, toUsers: bool, r: seq<Peer>)
    requires dialogs != []
    requires var e := dialogs[0]; acc2 == if e.User? && toUsers && e !in acc then acc + [e] else acc
    requires r == AddDialogPeers(acc2, dialogs[1..], toUsers)
    ensures forall j :: |acc2| <= j < |r| ==> r[j] != dialogs[0]
  {
    var e := dialogs[0];
    DialogAdded(acc2, dialogs[1..], toUsers);
    forall j | |acc2| <= j < |r| ensures r[j] != e {
      if acc2 != acc {
        assert r[|acc|] == acc2[|acc|] == e;
        assert e in r[..j];
      } else if e.User? && toUsers {
        assert e in r[..|acc|];
        assert r[..|acc|] == r[..j][..|acc|];
      }
    }
  }

  /** Past the head, the first occurrence in the list is one further than in its tail. */
  lemma FirstIndexTail(p: Peer, ps: seq<Peer>)
    requires ps != [] && p != ps[0]
    ensures FirstIndex(p, ps) == FirstIndex(p, ps[1..]) + 1
  {
    assert ps == [ps[0]] + ps[1..];
  }

  /** With messaging users on, no user of the dialog list is missed. */
  lemma {:induction false} DialogComplete(acc: seq<Peer>, dialogs: seq<Peer>, toUsers: bool)
    ensures var r := AddDialogPeers(acc, dialogs, toUsers);
      toUsers ==> forall p :: p in dialogs && p.User? ==> p in r
    decreases |dialogs|
  {
    if dialogs != [] && toUsers {
      var entity := dialogs[0];
      var acc' := if entity.User? && entity !in acc then acc + [entity] else acc;
      DialogComplete(acc', dialogs[1..], toUsers);
      var r := AddDialogPeers(acc', dialogs[1..], toUsers);
      forall p | p in dialogs && p.User? ensures p in r {
        if p != entity {
          assert p in dialogs[1..];
        } else {
          assert p in acc';
          assert p in r[..|acc'|];
        }
      }
    }
  }

  /**
   * The full contract of collect_targets: the contact users first (only when
   * contacts are enabled, in their order, duplicates kept), then the new dialog
   * users in the order of their first occurrence; nothing at all when the contact list fails; only the
   * contact part when the dialog list fails.
   */
  lemma CollectShape(cfg: Config, contacts: Fetch, dialogs: Fetch)
    ensures var r := Collect(cfg, contacts, dialogs);
      && (cfg.messageToContacts && contacts.FetchFailed? ==> r == [])
      && (ContactPart(cfg, contacts).Some? ==>
            var front := ContactPart(cfg, contacts).value;
            && |front| <= |r| && r[..|front|] == front
            && (dialogs.FetchFailed? ==> r == front)
            && (dialogs.Fetched? ==>
                  && Subsequence(r[|front|..], dialogs.items)
                  && FirstOrdered(r, |front|, dialogs.items)
                  && (forall k :: |front| <= k < |r| ==> r[k].User? && r[k] !in r[..k])
                  && (cfg.messageToUsers ==> forall p :: p in dialogs.items && p.User? ==> p in r)))
      && (!cfg.messageToContacts ==> ContactPart(cfg, contacts) == Some([]))
      && (cfg.messageToContacts && contacts.Fetched? ==> ContactPart(cfg, contacts) == Some(Users(contacts.items)))
  {
    if ContactPart(cfg, contacts).Some? && dialogs.Fetched? {
      DialogPeersShape(ContactPart(cfg, contacts).value, dialogs.items, cfg.messageToUsers);
    }
  }

  /** When the contact users are free of duplicates, so is the whole target list. */
  lemma CollectDistinct(cfg: Config, contacts: Fetch, dialogs: Fetch)
    requires cfg.messageToContacts && contacts.Fetched? ==> Distinct(Users(contacts.items))
    ensures Distinct(Collect(cfg, contacts, dialogs))
  {
    var r := Collect(cfg, contacts, dialogs);
    CollectShape(cfg, contacts, dialogs);
    if ContactPart(cfg, contacts).Some? {
      var front := ContactPart(cfg, contacts).value;
      assert Distinct(front);
      forall j, k | 0 <= j < k < |r| ensures r[j] != r[k] {
        if k < |front| {
          assert r[j] == front[j] && r[k] == front[k];
        } else {
          assert dialogs.Fetched?;
          assert r[j] in r[..k];
        }
      }
    }
  }
}
