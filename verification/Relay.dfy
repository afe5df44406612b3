/**
 The relay process: the rows it has committed and the background tasks it holds references to.

 Every method is one committed transaction of a route or of a worker coroutine, or one await between two of them,
 and performs in place exactly the step that `OrderModel` describes. `history` records those steps, and `Valid` says
 that it is a legal run that led here: whatever holds after every run holds of every relay object.
 */
module Relay {
  import opened Wrappers
  import opened OrderModel
  import opened OrderInvariants
  import opened OrderRequests

  class Relay {
    const retries: int
    var accounts: set<Id>
    var orders: map<Id, Order>
    var authzs: map<Id, Authorization>
    var certs: map<Id, Certificate>
    var tasks: map<nat, Task>
    var next: nat
    ghost var history: seq<Event>

    ghost function View(): System
      reads this
    {
      System(Database(accounts, orders, authzs, certs), tasks, next, retries)
    }

    ghost predicate Valid()
      reads this
    {
      Legal(retries, history) && After(retries, history) == View()
    }

    constructor (retries: int)
      ensures Valid() && history == [] && this.retries == retries
    {
      this.retries := retries;
      accounts, orders, authzs, certs := {}, map[], map[], map[];
      tasks, next, history := map[], 0, [];
    }

    lemma AlwaysSound()
      requires Valid()
      ensures Sound(View())
    {
      RunSound(retries, history);
    }

    lemma Happens(e: Event)
      requires Valid() && Enabled(View(), e)
      ensures Legal(retries, history + [e]) && After(retries, history + [e]) == Apply(View(), e)
    {
      assert Before(history + [e]) == history;
    }

    // ----- accounts

    method NewAccount(account: Id)
      requires Valid() && UnusedAccount(View().db, account)
      modifies this`accounts, this`history
      ensures Valid() && history == old(history) + [Event.NewAccount(account)]
      ensures View() == old(View()).(db := old(View()).db.(accounts := old(accounts) + {account}))
    {
      ghost var e := Event.NewAccount(account);
      Happens(e);
      accounts := accounts + {account};
      assert View() == Apply(old(View()), e);
      history := history + [e];
    }

    // ----- routes/order.py

    /** True exactly for the single non-blank DNS identifier the relay accepts. */
    static method ValidateIdentifiers(identifiers: seq<Identifier>) returns (ok: bool)
      ensures ok <==> |identifiers| == 1 && identifiers[0].kind == "dns" && !Blank(identifiers[0].value)
    {
      if |identifiers| == 0 { return false; }
      if |identifiers| > 1 { return false; }
      for k := 0 to |identifiers|
        invariant forall j | 0 <= j < k :: identifiers[j].kind == "dns" && !Blank(identifiers[j].value)
      {
        if identifiers[k].kind != "dns" || Blank(identifiers[k].value) { return false; }
      }
      return true;
    }

    method NewOrder(caller: Id, identifiers: seq<Identifier>, admitted: bool, orderId: Id, authzId: Id, token: string)
      returns (created: bool)
      requires Valid() && orderId !in orders && authzId !in authzs
      modifies this`orders, this`authzs, this`history
      ensures Valid()
      ensures history == old(history) + [Event.NewOrder(caller, identifiers, admitted, orderId, authzId, token)]
      ensures created <==> AcceptableIdentifiers(identifiers) && admitted
      ensures created ==> orders == old(orders)[orderId := Order(caller, Pending, [identifiers[0].value], None)]
      ensures created ==> AuthzsOf(View().db, orderId) == {authzId}
      ensures created ==>
                authzs == old(authzs)[authzId := Authorization(orderId, Pending, identifiers[0].value, Some(token))]
      ensures !created ==> View() == old(View())
    {
      ghost var e := Event.NewOrder(caller, identifiers, admitted, orderId, authzId, token);
      AlwaysSound();
      Happens(e);
      created := ValidateIdentifiers(identifiers);
      created := created && admitted;
      if created {
        orders := orders[orderId := Order(caller, Pending, [identifiers[0].value], None)];
        for k := 0 to |identifiers|
          modifies this`authzs
          invariant authzs == if k == 0 then old(authzs)
                              else old(authzs)[authzId := Authorization(orderId, Pending, identifiers[0].value,
                                  Some(token))]
        {
          authzs := authzs[authzId := Authorization(orderId, Pending, identifiers[k].value, Some(token))];
        }
      }
      history := history + [e];
    }

    /** The guard of finalize_order; `granted` requests go on to `ClaimOrder`. */
    method FinalizeOrder(caller: Id, orderId: Id, csrDecodes: bool) returns (granted: bool)
      requires Valid()
      modifies this`tasks, this`next, this`history
      ensures Valid() && history == old(history) + [Finalize(caller, orderId, csrDecodes)]
      ensures granted <==> orderId in orders && orders[orderId].account == caller && orders[orderId].status == Ready
                           && csrDecodes && orders[orderId].identifiers != []
      ensures granted ==> tasks == old(tasks)[old(next) := Claim(orderId)] && next == old(next) + 1
      ensures !granted ==> tasks == old(tasks) && next == old(next)
    {
      Happens(Finalize(caller, orderId, csrDecodes));
      history := history + [Finalize(caller, orderId, csrDecodes)];
      if orderId !in orders || orders[orderId].account != caller { return false; }
      if orders[orderId].status != Ready { return false; }
      if !csrDecodes { return false; }
      if orders[orderId].identifiers == [] { return false; }
      tasks, next := tasks[next := Claim(orderId)], next + 1;
      return true;
    }

    /** The conditional UPDATE: of any number of requests that saw `ready`, at most one wins each `ready`. */
    method ClaimOrder(i: nat) returns (claimed: bool)
      requires Valid() && i in tasks && tasks[i].Claim?
      modifies this`orders, this`tasks, this`history
      ensures Valid() && history == old(history) + [Resume(i, Proceed)]
      ensures var o := old(tasks)[i].order;
              && o in old(orders) && (claimed <==> old(orders)[o].status == Ready)
              && if claimed
                 then orders == old(orders)[o := old(orders)[o].(status := Processing)]
                      && tasks == old(tasks)[i := Finalizer(o)]
                 else orders == old(orders) && tasks == old(tasks) - {i}
    {
      var o := tasks[i].order;
      AlwaysSound();
      Happens(Resume(i, Proceed));
      assert o in orders;
      claimed := orders[o].status == Ready;
      if claimed {
        orders := orders[o := orders[o].(status := Processing)];
        tasks := tasks[i := Finalizer(o)];
      } else {
        tasks := tasks - {i};
      }
      history := history + [Resume(i, Proceed)];
    }

    // ----- routes/challenge.py

    method AcknowledgeChallenge(caller: Id, authzId: Id) returns (status: int)
      requires Valid()
      modifies this`orders, this`authzs, this`tasks, this`next, this`history
      ensures Valid() && history == old(history) + [Acknowledge(caller, authzId)]
      ensures status == 404 <==> authzId !in old(authzs)
      ensures status == 200 <==> authzId in old(authzs) && old(authzs)[authzId].order in old(orders)
                                 && old(orders)[old(authzs)[authzId].order].account == caller
                                 && (old(authzs)[authzId].status == Pending
                                     || old(authzs)[authzId].status == Processing)
      ensures status == 200 ==>
                var authz, o := old(authzs)[authzId], old(authzs)[authzId].order;
                && authzs == old(authzs)[authzId := authz.(status := Processing)]
                && orders == (if authz.status == Pending && old(orders)[o].status == Pending
                              then old(orders)[o := old(orders)[o].(status := Processing)] else old(orders))
                && tasks == old(tasks)[old(next) := Validator(authzId, o)] && next == old(next) + 1
      ensures status != 200 ==> View() == old(View())
    {
      AcknowledgeEffect(View(), caller, authzId);
      Happens(Acknowledge(caller, authzId));
      history := history + [Acknowledge(caller, authzId)];
      if authzId !in authzs { return 404; }
      var authz := authzs[authzId];
      if authz.order !in orders || orders[authz.order].account != caller { return 403; }
      if authz.status != Pending && authz.status != Processing { return 400; }
      if authz.status == Pending {
        authzs := authzs[authzId := authz.(status := Processing)];
        if orders[authz.order].status == Pending {
          orders := orders[authz.order := orders[authz.order].(status := Processing)];
        }
      }
      tasks, next := tasks[next := Validator(authzId, authz.order)], next + 1;
      return 200;
    }

    // ----- worker.py, run_challenge

    /** First session: what can be refused without a fetch is; otherwise the fetch begins. */
    method BeginChallenge(i: nat)
      requires Valid() && i in tasks && tasks[i].Validator?
      modifies this`orders, this`authzs, this`tasks, this`history
      ensures Valid() && history == old(history) + [Resume(i, Proceed)]
      ensures var a, o := old(tasks)[i].authz, old(tasks)[i].order;
              && a in old(authzs) && o in old(orders)
              && if old(authzs)[a].token.None? || old(orders)[o].account !in accounts
                 then authzs == old(authzs)[a := old(authzs)[a].(status := Invalid)]
                      && orders == old(orders)[o := old(orders)[o].(status := Invalid)] && tasks == old(tasks) - {i}
                 else authzs == old(authzs) && orders == old(orders)
                      && tasks == old(tasks)[i := Fetching(a, o, if retries > 0 then retries else 0)]
    {
      var a, o := tasks[i].authz, tasks[i].order;
      AlwaysSound();
      Happens(Resume(i, Proceed));
      history := history + [Resume(i, Proceed)];
      assert a in authzs && o in orders;  // no row is ever deleted
      if authzs[a].token.None? || orders[o].account !in accounts {
        authzs := authzs[a := authzs[a].(status := Invalid)];
        orders := orders[o := orders[o].(status := Invalid)];
        tasks := tasks - {i};
        return;
      }
      tasks := tasks[i := Fetching(a, o, if retries > 0 then retries else 0)];
    }

    /** One turn of the loop of validate_http01, or its end when no attempt is left. */
    method FetchAttempt(i: nat, answer: Answer)
      requires Valid() && i in tasks && tasks[i].Fetching? && CanResume(View(), i, answer)
      modifies this`tasks, this`history
      ensures Valid() && history == old(history) + [Resume(i, answer)]
      ensures var t := old(tasks)[i];
              tasks == old(tasks)[i := if t.left == 0 || answer == AttemptMatched then Fetched(t.authz, t.order, true)
                                       else if answer == AttemptFailed && t.left > 1
                                       then Fetching(t.authz, t.order, t.left - 1)
                                       else Fetched(t.authz, t.order, false)]
    {
      var a, o, left := tasks[i].authz, tasks[i].order, tasks[i].left;
      Happens(Resume(i, answer));
      history := history + [Resume(i, answer)];
      if left == 0 || answer == AttemptMatched {
        tasks := tasks[i := Fetched(a, o, true)];
      } else if answer == AttemptFailed && left > 1 {
        tasks := tasks[i := Fetching(a, o, left - 1)];
      } else {
        tasks := tasks[i := Fetched(a, o, false)];
      }
    }

    /** Second session: the outcome of the fetch is committed. */
    method EndChallenge(i: nat)
      requires Valid() && i in tasks && tasks[i].Fetched?
      modifies this`orders, this`authzs, this`tasks, this`history
      ensures Valid() && history == old(history) + [Resume(i, Proceed)]
      ensures tasks == old(tasks) - {i}
      ensures var a, o, ok := old(tasks)[i].authz, old(tasks)[i].order, old(tasks)[i].ok;
              && a in old(authzs) && o in old(orders)
              && authzs == old(authzs)[a := old(authzs)[a].(status := if ok then Status.Valid else Invalid)]
              && if !ok then orders == old(orders)[o := old(orders)[o].(status := Invalid)]
                 else if forall b | b in authzs && authzs[b].order == o :: authzs[b].status == Status.Valid
                 then orders == old(orders)[o := old(orders)[o].(status := Ready)]
                 else orders == old(orders)
    {
      var a, o, validated := tasks[i].authz, tasks[i].order, tasks[i].ok;
      AlwaysSound();
      Happens(Resume(i, Proceed));
      history := history + [Resume(i, Proceed)];
      tasks := tasks - {i};
      assert a in authzs && o in orders;
      if validated {
        authzs := authzs[a := authzs[a].(status := Status.Valid)];
        if forall b | b in authzs :: authzs[b].order == o ==> authzs[b].status == Status.Valid {
          orders := orders[o := orders[o].(status := Ready)];
        }
      } else {
        authzs := authzs[a := authzs[a].(status := Invalid)];
        orders := orders[o := orders[o].(status := Invalid)];
      }
    }

    // ----- worker.py, process_finalize

    method BeginFinalize(i: nat)
      requires Valid() && i in tasks && tasks[i].Finalizer?
      modifies this`tasks, this`history
      ensures Valid() && history == old(history) + [Resume(i, Proceed)]
      ensures tasks == old(tasks)[i := Signing(old(tasks)[i].order)]
    {
      AlwaysSound();
      Happens(Resume(i, Proceed));
      history := history + [Resume(i, Proceed)];
      var o := tasks[i].order;
      assert o in orders;
      tasks := tasks[i := Signing(o)];
    }

    method FailFinalize(i: nat)
      requires Valid() && i in tasks && tasks[i].Signing?
      modifies this`orders, this`tasks, this`history
      ensures Valid() && history == old(history) + [Resume(i, SignFailed)]
      ensures var o := old(tasks)[i].order;
              o in old(orders) && orders == old(orders)[o := old(orders)[o].(status := Invalid)]
      ensures tasks == old(tasks) - {i}
    {
      AlwaysSound();
      Happens(Resume(i, SignFailed));
      history := history + [Resume(i, SignFailed)];
      var o := tasks[i].order;
      assert o in orders;
      orders := orders[o := orders[o].(status := Invalid)];
      tasks := tasks - {i};
    }

    /** store_cert: commits the certificate on its own, before anything refers to it. */
    method StoreCert(i: nat, certId: Id, pem: string)
      requires Valid() && i in tasks && tasks[i].Signing? && certId !in certs
      modifies this`certs, this`tasks, this`history
      ensures Valid() && history == old(history) + [Resume(i, Signed(certId, pem))]
      ensures var o := old(tasks)[i].order;
              certs == old(certs)[certId := Certificate(o, pem)] && tasks == old(tasks)[i := Storing(o, certId)]
      ensures Unreferenced(View().db, certId)
    {
      AlwaysSound();
      Happens(Resume(i, Signed(certId, pem)));
      history := history + [Resume(i, Signed(certId, pem))];
      var o := tasks[i].order;
      assert o in orders;
      certs := certs[certId := Certificate(o, pem)];
      tasks := tasks[i := Storing(o, certId)];
    }

    method CompleteFinalize(i: nat)
      requires Valid() && i in tasks && tasks[i].Storing?
      modifies this`orders, this`tasks, this`history
      ensures Valid() && history == old(history) + [Resume(i, Proceed)]
      ensures var o, c := old(tasks)[i].order, old(tasks)[i].cert;
              && o in old(orders)
              && orders == old(orders)[o := old(orders)[o].(status := Status.Valid, certId := Some(c))]
              && c in certs && certs[c].order == o
      ensures tasks == old(tasks) - {i}
    {
      AlwaysSound();
      Happens(Resume(i, Proceed));
      history := history + [Resume(i, Proceed)];
      var o, c := tasks[i].order, tasks[i].cert;
      orders := orders[o := orders[o].(certId := Some(c), status := Status.Valid)];
      tasks := tasks - {i};
    }

    // ----- main.py

    /** The next process start: no task survives, and both bulk UPDATEs are committed together. */
    method ResetProcessingOrders()
      requires Valid()
      modifies this`orders, this`authzs, this`tasks, this`history
      ensures Valid() && history == old(history) + [Restart]
      ensures tasks == map[] && orders.Keys == old(orders).Keys && authzs.Keys == old(authzs).Keys
      ensures forall o | o in orders ::
                if old(orders)[o].status == Processing then orders[o] == old(orders)[o].(status := Invalid)
                else orders[o] == old(orders)[o]
      ensures forall a | a in authzs ::
                if old(authzs)[a].status == Processing then authzs[a] == old(authzs)[a].(status := Invalid)
                else authzs[a] == old(authzs)[a]
    {
      RestartEffect(View());
      Happens(Restart);
      history := history + [Restart];
      tasks := map[];
      orders := ResetOrders(orders);
      authzs := ResetAuthzs(authzs);
    }
  }
}
