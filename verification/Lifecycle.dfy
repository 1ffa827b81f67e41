/** Closing a connection is a promise kept by the queue: a closed connection stays in the table until
    exactly one waiting request removes it. */
module Lifecycle {
  import opened Codec
  import opened Numbers
  import opened Connections

  /** A closed connection has exactly one unregister request waiting, an open one has none. */
  ghost predicate TeardownExact(t: Table, waiting: seq<Request>) {
    forall fd :: fd in t ==> multiset(waiting)[UnregisterFd(fd)] == if t[fd].closed then 1 else 0
  }

  predicate Mentions(r: Request, fd: int) {
    (r.RegisterFd? || r.UnregisterFd?) && r.fd == fd
  }

  /** Connection identities are fresh: whoever waits to be registered is neither in the table
      nor named by any other waiting register or unregister request. */
  ghost predicate FreshIds(t: Table, waiting: seq<Request>) {
    forall i :: 0 <= i < |waiting| && waiting[i].RegisterFd? ==>
      waiting[i].fd !in t && forall j :: 0 <= j < |waiting| && j != i ==> !Mentions(waiting[j], waiting[i].fd)
  }

  ghost predicate NoneClosed(t: Table) {
    forall fd :: fd in t ==> !t[fd].closed
  }

  lemma {:induction false} AppendedAllKeepsClosed(c: Conn, cmds: seq<Command>)
    ensures AppendedAll(c, cmds).closed == c.closed
  {
    if cmds != [] {
      AppendedAllKeepsClosed(c, cmds[..|cmds| - 1]);
    }
  }

  /** No request closes or reopens a connection; requests only add fresh ones and drop some. */
  lemma HandleKeepsClosed(t: Table, req: Request, k: Kernel, fd: int)
    requires fd in Handle(t, req, k)
    ensures fd in t ==> Handle(t, req, k)[fd].closed == t[fd].closed
    ensures fd !in t ==> req.RegisterFd? && req.fd == fd && !Handle(t, req, k)[fd].closed
    ensures !(req.UnregisterFd? && req.fd == fd)
  {
    if req.SendFriendList? && req.fd in t {
      var header := Response("friends: " + Digits(|req.friendIds|));
      AppendedAllKeepsClosed(t[req.fd], [header] + FriendLines(t, req.friendIds));
    }
  }

  /** Only its own registration adds a connection. */
  lemma NotAdded(t: Table, req: Request, k: Kernel, fd: int)
    requires fd !in t && !(req.RegisterFd? && req.fd == fd)
    ensures fd !in Handle(t, req, k)
  {}

  lemma FreshStep(t: Table, req: Request, rest: seq<Request>, k: Kernel)
    requires FreshIds(t, [req] + rest)
    ensures FreshIds(Handle(t, req, k), rest)
  {
    var all := [req] + rest;
    assert forall j :: 0 <= j < |rest| ==> rest[j] == all[j + 1];
    forall i | 0 <= i < |rest| && rest[i].RegisterFd?
      ensures rest[i].fd !in Handle(t, req, k)
      ensures forall j :: 0 <= j < |rest| && j != i ==> !Mentions(rest[j], rest[i].fd)
    {
      assert all[i + 1] == rest[i] && all[0] == req;
      assert !Mentions(all[0], all[i + 1].fd);
      NotAdded(t, req, k, rest[i].fd);
    }
  }

  lemma NoRemovalYet(t: Table, req: Request, rest: seq<Request>)
    requires FreshIds(t, [req] + rest) && req.RegisterFd?
    ensures UnregisterFd(req.fd) !in rest
  {
    var all := [req] + rest;
    assert all[0] == req;
    assert forall j :: 0 <= j < |rest| ==> rest[j] == all[j + 1] && !Mentions(all[j + 1], req.fd);
  }

  lemma TeardownStep(t: Table, req: Request, rest: seq<Request>, k: Kernel)
    requires TeardownExact(t, [req] + rest) && FreshIds(t, [req] + rest)
    ensures TeardownExact(Handle(t, req, k), rest)
    ensures FreshIds(Handle(t, req, k), rest)
  {
    var t', all := Handle(t, req, k), [req] + rest;
    FreshStep(t, req, rest, k);
    assert multiset(all) == multiset{req} + multiset(rest);
    forall fd | fd in t' ensures multiset(rest)[UnregisterFd(fd)] == if t'[fd].closed then 1 else 0 {
      HandleKeepsClosed(t, req, k, fd);
      if fd !in t {
        NoRemovalYet(t, req, rest);
      }
    }
  }

  lemma {:induction false} TeardownAlongBatch(t: Table, batch: seq<Request>, ks: nat -> Kernel, i: nat)
    requires i <= |batch| && TeardownExact(t, batch) && FreshIds(t, batch)
    ensures TeardownExact(HandleAll(t, batch[..i], ks), batch[i..])
    ensures FreshIds(HandleAll(t, batch[..i], ks), batch[i..])
  {
    if i == 0 {
      assert batch[0..] == batch;
    } else {
      TeardownAlongBatch(t, batch, ks, i - 1);
      assert batch[..i][..i - 1] == batch[..i - 1];
      assert batch[i - 1..] == [batch[i - 1]] + batch[i..];
      TeardownStep(HandleAll(t, batch[..i - 1], ks), batch[i - 1], batch[i..], ks(i - 1));
    }
  }

  /** Once the loop has worked through a batch, no closed connection is left in the table. */
  lemma BatchLeavesNoneClosed(t: Table, batch: seq<Request>, ks: nat -> Kernel)
    requires TeardownExact(t, batch) && FreshIds(t, batch)
    ensures NoneClosed(HandleAll(t, batch, ks))
  {
    TeardownAlongBatch(t, batch, ks, |batch|);
    assert batch[..|batch|] == batch && batch[|batch|..] == [];
  }

  /** Closing an open connection and queueing its removal keeps the promise. */
  lemma CloseKeepsTeardown(t: Table, fd: int, c: Conn, waiting: seq<Request>)
    requires TeardownExact(t, waiting) && FreshIds(t, waiting)
    requires fd in t && !t[fd].closed && c.closed
    ensures TeardownExact(t[fd := c], waiting + [UnregisterFd(fd)])
    ensures FreshIds(t[fd := c], waiting + [UnregisterFd(fd)])
  {
    var w' := waiting + [UnregisterFd(fd)];
    assert multiset(w') == multiset(waiting) + multiset{UnregisterFd(fd)};
    forall i | 0 <= i < |w'| && w'[i].RegisterFd?
      ensures w'[i].fd !in t[fd := c] && forall j :: 0 <= j < |w'| && j != i ==> !Mentions(w'[j], w'[i].fd)
    {
      assert w'[i] == waiting[i];
      assert forall j :: 0 <= j < |waiting| ==> w'[j] == waiting[j];
    }
  }

  /** Queueing any message request, and changing a connection without closing it, keeps the promise. */
  lemma PushKeepsTeardown(t: Table, waiting: seq<Request>, req: Request)
    requires TeardownExact(t, waiting) && FreshIds(t, waiting)
    requires !req.RegisterFd? && !req.UnregisterFd?
    ensures TeardownExact(t, waiting + [req]) && FreshIds(t, waiting + [req])
  {
    var w' := waiting + [req];
    assert multiset(w') == multiset(waiting) + multiset{req};
    assert forall j :: 0 <= j < |waiting| ==> w'[j] == waiting[j];
  }

  lemma ChangeKeepsTeardown(t: Table, fd: int, c: Conn, waiting: seq<Request>)
    requires TeardownExact(t, waiting) && FreshIds(t, waiting) && fd in t && c.closed == t[fd].closed
    ensures TeardownExact(t[fd := c], waiting) && FreshIds(t[fd := c], waiting)
  {}
}
