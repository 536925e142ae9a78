/** The client whose tenant-scoped delegates each open their own settings-carrying transaction. */
module PrismaBusinessService {
  import opened Foundations
  import opened TenantContext
  import opened TenantIsolation

  datatype Model =
    | Organization | Membership | File | Job | OrgExport | Notification | EntitlementOverride
    | BillingEvent | SubscriptionSnapshot | Event | EventAttendee | EventOccurrenceAttendee
    | EventException | ActivityLog | User

  const TENANT_SCOPED_MODELS: seq<Model> :=
    [Organization, Membership, File, Job, OrgExport, Notification, EntitlementOverride,
     BillingEvent, SubscriptionSnapshot, Event, EventAttendee, EventOccurrenceAttendee,
     EventException, ActivityLog]

  /** Every model but the users' own. */
  lemma OnlyUsersAreUnscoped(model: Model)
    ensures model in TENANT_SCOPED_MODELS <==> model != User
  {
    if model != User {
      var i := match model {
        case Organization => 0
        case Membership => 1
        case File => 2
        case Job => 3
        case OrgExport => 4
        case Notification => 5
        case EntitlementOverride => 6
        case BillingEvent => 7
        case SubscriptionSnapshot => 8
        case Event => 9
        case EventAttendee => 10
        case EventOccurrenceAttendee => 11
        case EventException => 12
        case _ => 13
      };
      assert TENANT_SCOPED_MODELS[i] == model;
    }
  }

  /** A client property: the generated accessor, a proxy around it, or something that is not an object. */
  datatype Delegate = Raw(model: Model) | Proxy(target: Delegate) | NotAnObject

  /** A pooled connection: settings that outlive a transaction, and the ones local to the open one. */
  class Session {
    var session: Settings
    var overlay: Overlay

    ghost predicate Idle()
      reads this
    {
      overlay == NO_OVERLAY
    }

    function Shown(): Settings
      reads this
    {
      Connection(session, overlay, None).Visible()
    }

    /** `set_config(name, value, true)`, the three settings numbered in the order the proxy sets them. */
    method SetConfig(setting: nat, value: Option<string>)
      requires setting < 3
      modifies this`overlay
      ensures overlay == match setting
                         case 0 => old(overlay).(org := Set(value))
                         case 1 => old(overlay).(user := Set(value))
                         case _ => old(overlay).(lookup := Set(value))
    {
      if setting == 0 {
        overlay := overlay.(org := Set(value));
      } else if setting == 1 {
        overlay := overlay.(user := Set(value));
      } else {
        overlay := overlay.(lookup := Set(value));
      }
    }

    method EndTransaction()
      modifies this`overlay
      ensures Idle()
    {
      overlay := NO_OVERLAY;
    }
  }

  class Client {
    var delegates: map<Model, Delegate>

    /** Replaces, in place, each scoped delegate that is an object by a proxy around it, and nothing else. */
    method WrapTenantScopedDelegates()
      modifies this
      ensures delegates.Keys == old(delegates).Keys
      ensures forall name | name in delegates ::
                delegates[name] == if name != User && old(delegates)[name] != NotAnObject
                                   then Proxy(old(delegates)[name]) else old(delegates)[name]
    {
      WrapAll(TENANT_SCOPED_MODELS);
      forall name | name in delegates ensures name in TENANT_SCOPED_MODELS <==> name != User {
        OnlyUsersAreUnscoped(name);
      }
    }

    /** A name listed twice would be wrapped twice, so the list must not repeat one. */
    method WrapAll(models: seq<Model>)
      requires forall i, j | 0 <= i < j < |models| :: models[i] != models[j]
      modifies this
      ensures delegates.Keys == old(delegates).Keys
      ensures forall name | name in delegates ::
                delegates[name] == if name in models && old(delegates)[name] != NotAnObject
                                   then Proxy(old(delegates)[name]) else old(delegates)[name]
    {
      var i := 0;
      while i < |models|
        invariant i <= |models|
        invariant delegates.Keys == old(delegates).Keys
        invariant forall name | name in delegates ::
                    delegates[name] == if name in models[..i] && old(delegates)[name] != NotAnObject
                                       then Proxy(old(delegates)[name]) else old(delegates)[name]
      {
        var name := models[i];
        assert name !in models[..i];
        assert models[..i + 1] == models[..i] + [name];
        if name in delegates && delegates[name] != NotAnObject {
          delegates := delegates[name := Proxy(delegates[name])];
        }
        i := i + 1;
      }
      assert models[..i] == models;
    }

    /**
     * One proxied call on a free connection. The store is captured first; `throwsAt` is the statement
     * (0 to 3) that fails, if any. A completed query read its caller's store, and either way the
     * connection goes back to the pool showing what it showed before.
     */
    method ScopedCall(ambient: Ambient, query: nat, conn: Session, throwsAt: Option<nat>) returns (answer: Option<Observation>)
      requires conn.Idle()
      modifies conn`overlay
      ensures conn.Idle() && conn.Shown() == old(conn.Shown())
      ensures answer.None? <==> throwsAt.Some? && throwsAt.value <= 3
      ensures answer.Some? ==>
        var store := if ambient.Some? then ambient.value else TenantStore(None, None, false);
        answer.value == Observation(query, store.orgId, store.userId, if store.systemLookup then Some("true") else Some("false"))
    {
      var captured := CurrentStore(ambient);
      answer := None;
      var statement := 0;
      while statement < 3 && throwsAt != Some(statement)
        invariant statement <= 3
        invariant throwsAt.Some? ==> throwsAt.value >= statement
        invariant conn.overlay == Configured(captured, statement)
      {
        conn.SetConfig(statement,
          if statement == 0 then captured.orgId
          else if statement == 1 then captured.userId
          else Some(LookupText(captured.systemLookup)));
        statement := statement + 1;
      }
      if statement == 3 && throwsAt != Some(3) {
        var shown := conn.Shown();
        answer := Some(Observation(query, shown.org, shown.user, shown.lookup));
      }
      conn.EndTransaction();
    }
  }
}
