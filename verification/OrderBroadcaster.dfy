/** The registry of order channels (streams/orders.py, `OrdersBroadcaster`), one call at a time. The
  * interleaving of these calls with cool-down tasks is the subject of CoolDownRegistry.
  */
module OrderBroadcaster {
  import opened Options
  import opened RecentOrders
  import opened OrderChannel

  class OrdersBroadcaster {
    var subs: map<string, AccountSubscription>

    ghost predicate Valid()
      reads this, subs.Values
    {
      forall a :: a in subs ==> subs[a].account == a && subs[a].Valid()
    }

    constructor ()
      ensures Valid() && subs == map[]
    {
      subs := map[];
    }

    // The registered channel, or a new one.
    method SubscriptionOf(account: string) returns (sub: AccountSubscription)
      requires Valid()
      modifies this
      ensures Valid() && subs == old(subs)[account := sub] && sub.Valid()
      ensures account in old(subs) ==> sub == old(subs)[account]
      ensures account !in old(subs) ==> fresh(sub) && sub.Abs() == Fresh(account) && sub.coolDownTask == null
    {
      if account in subs {
        sub := subs[account];
      } else {
        sub := new AccountSubscription(account);
        subs := subs[account := sub];
      }
    }

    // The channel is the registered one if there is one, with its ring, counter and filter as they are.
    method Subscribe(account: string, id: ConsumerId, bootstrap: Option<Payload>) returns (sub: AccountSubscription)
      requires Valid()
      modifies this, subs.Values, set a | a in subs && subs[a].coolDownTask != null :: subs[a].coolDownTask
      ensures Valid() && subs == old(subs)[account := sub]
      ensures if account in old(subs) then sub == old(subs)[account] else fresh(sub)
      ensures var before := if account in old(subs) then old(subs[account].Abs()) else Fresh(account);
              var attached := Attached(before, id);
              sub.Abs() == if bootstrap.Some? then Published(attached, Bootstrap, bootstrap.value) else attached
      ensures sub.coolDownTask == null
      ensures account in old(subs) && old(subs[account].coolDownTask) != null ==> old(subs[account].coolDownTask).done
      ensures forall a :: a in old(subs) && a != account ==> unchanged(old(subs)[a])
    {
      sub := SubscriptionOf(account);
      sub.Welcome(id, bootstrap);
    }

    // A frame for an account without subscription is dropped, and so is a repeated frame.
    method Publish(account: string, frame: Payload)
      requires Valid()
      modifies subs.Values
      ensures Valid()
      ensures account in subs ==> subs[account].Abs() == Pushed(old(subs[account].Abs()), frame) &&
                                  subs[account].log == old(subs[account].log) + Emitted(old(subs[account].Abs()), frame)
      ensures forall a :: a in subs && a != account ==> unchanged(subs[a])
    {
      if account !in subs { return; }
      var sub := subs[account];
      var duplicate := sub.IsDuplicateOrder(frame);
      if duplicate { return; }
      var _ := sub.Publish(OrderUpdate, frame);
    }

    // Only an idle subscription that is still the registered one is forgotten.
    method Teardown(sub: AccountSubscription)
      modifies this
      ensures subs == if sub.consumers == map[] && sub.account in old(subs) && old(subs)[sub.account] == sub
                      then old(subs) - {sub.account} else old(subs)
    {
      if sub.consumers != map[] { return; }
      if sub.account in subs && subs[sub.account] == sub {
        subs := subs - {sub.account};
      }
    }
  }
}
