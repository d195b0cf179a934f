/** The actuator subscriptions made by `Controller.submitApplication`: for
    every ACTUATOR edge of the application, the edge's source module is
    subscribed to every actuator whose type equals the edge's destination
    up to case. */
module Submission {
  import opened Common
  import opened Entities

  /** `AppModule.subscribeActuator(actuatorId, tupleType)` called on the
      module named `moduleName`. */
  datatype Subscription = Subscription(moduleName: string, actuatorId: int, tupleType: string)

  /** The actuator `a` is one the edge `e` subscribes its source module to. */
  predicate Serves(e: AppEdge, a: Actuator) {
    e.edgeType == ActuatorEdge && EqualsIgnoreCase(a.actuatorType, e.destination)
  }

  /** The inner loop: the subscriptions one edge makes, actuators in list order. */
  function EdgeSubscriptions(e: AppEdge, actuators: seq<Actuator>): seq<Subscription>
    decreases |actuators|
  {
    if actuators == [] then []
    else
      var a := actuators[|actuators| - 1];
      EdgeSubscriptions(e, actuators[..|actuators| - 1])
      + (if Serves(e, a) then [Subscription(e.source, a.id, e.tupleType)] else [])
  }

  /** The outer loop: the subscriptions of all edges, edges in list order. */
  function Subscriptions(edges: seq<AppEdge>, actuators: seq<Actuator>): seq<Subscription>
    decreases |edges|
  {
    if edges == [] then []
    else Subscriptions(edges[..|edges| - 1], actuators) + EdgeSubscriptions(edges[|edges| - 1], actuators)
  }

  /** The number of actuators an edge serves. */
  function ServedCount(e: AppEdge, actuators: seq<Actuator>): (r: nat)
    ensures r <= |actuators|
    ensures r == 0 <==> forall k :: 0 <= k < |actuators| ==> !Serves(e, actuators[k])
    decreases |actuators|
  {
    if actuators == [] then 0
    else
      ServedCount(e, actuators[..|actuators| - 1]) + (if Serves(e, actuators[|actuators| - 1]) then 1 else 0)
  }

  /** One edge makes one subscription per actuator it serves. */
  lemma {:induction false} EdgeSubscriptionsCount(e: AppEdge, actuators: seq<Actuator>)
    ensures |EdgeSubscriptions(e, actuators)| == ServedCount(e, actuators)
    decreases |actuators|
  {
    if actuators != [] {
      EdgeSubscriptionsCount(e, actuators[..|actuators| - 1]);
    }
  }

  /** Every subscription an edge makes is for the edge's source module and
      tuple type and for an actuator it serves. */
  lemma {:induction false} EdgeSubscriptionsSound(e: AppEdge, actuators: seq<Actuator>)
    ensures forall s :: s in EdgeSubscriptions(e, actuators) ==>
              s.moduleName == e.source && s.tupleType == e.tupleType &&
              exists k :: 0 <= k < |actuators| && actuators[k].id == s.actuatorId && Serves(e, actuators[k])
    decreases |actuators|
  {
    if actuators != [] {
      var n := |actuators| - 1;
      var p := actuators[..n];
      EdgeSubscriptionsSound(e, p);
      forall s | s in EdgeSubscriptions(e, actuators)
        ensures s.moduleName == e.source && s.tupleType == e.tupleType
        ensures exists k :: 0 <= k < |actuators| && actuators[k].id == s.actuatorId && Serves(e, actuators[k])
      {
        if s in EdgeSubscriptions(e, p) {
          var k :| 0 <= k < |p| && p[k].id == s.actuatorId && Serves(e, p[k]);
          assert actuators[k] == p[k];
        } else {
          assert actuators[n].id == s.actuatorId && Serves(e, actuators[n]);
        }
      }
    }
  }

  /** An edge subscribes its source to every actuator it serves. */
  lemma {:induction false} EdgeSubscriptionsComplete(e: AppEdge, actuators: seq<Actuator>)
    ensures forall k :: 0 <= k < |actuators| && Serves(e, actuators[k]) ==>
              Subscription(e.source, actuators[k].id, e.tupleType) in EdgeSubscriptions(e, actuators)
    decreases |actuators|
  {
    if actuators != [] {
      var n := |actuators| - 1;
      var p := actuators[..n];
      EdgeSubscriptionsComplete(e, p);
      forall k | 0 <= k < |actuators| && Serves(e, actuators[k])
        ensures Subscription(e.source, actuators[k].id, e.tupleType) in EdgeSubscriptions(e, actuators)
      {
        if k < n {
          assert p[k] == actuators[k];
        }
      }
    }
  }

  /** An edge's subscriptions for actuators before the last one do not name
      the last actuator's id, when actuator ids are distinct. */
  lemma LastNotEarlier(e: AppEdge, actuators: seq<Actuator>)
    requires |actuators| > 0
    requires forall i, j :: 0 <= i < j < |actuators| ==> actuators[i].id != actuators[j].id
    ensures Subscription(e.source, actuators[|actuators| - 1].id, e.tupleType)
              !in EdgeSubscriptions(e, actuators[..|actuators| - 1])
  {
    var n := |actuators| - 1;
    var p := actuators[..n];
    EdgeSubscriptionsSound(e, p);
    forall i | 0 <= i < |p|
      ensures p[i].id != actuators[n].id
    {
      assert p[i] == actuators[i];
    }
  }

  /** Exactly one: when actuator ids are distinct, an edge subscribes its
      source to a given actuator once if it serves that actuator, and not at all otherwise. */
  lemma {:induction false} ExactlyOnce(e: AppEdge, actuators: seq<Actuator>, k: nat)
    requires k < |actuators|
    requires forall i, j :: 0 <= i < j < |actuators| ==> actuators[i].id != actuators[j].id
    ensures multiset(EdgeSubscriptions(e, actuators))[Subscription(e.source, actuators[k].id, e.tupleType)]
              == if Serves(e, actuators[k]) then 1 else 0
    decreases |actuators|
  {
    var n := |actuators| - 1;
    var p := actuators[..n];
    var s := Subscription(e.source, actuators[k].id, e.tupleType);
    var last := if Serves(e, actuators[n]) then [Subscription(e.source, actuators[n].id, e.tupleType)] else [];
    assert multiset(EdgeSubscriptions(e, actuators))[s] == multiset(EdgeSubscriptions(e, p))[s] + multiset(last)[s] by {
      assert EdgeSubscriptions(e, actuators) == EdgeSubscriptions(e, p) + last;
    }
    var here := if Serves(e, actuators[k]) then 1 else 0;
    if k == n {
      assert multiset(EdgeSubscriptions(e, p))[s] == 0 by {
        LastNotEarlier(e, actuators);
      }
      assert multiset(last)[s] == here;
    } else {
      assert multiset(EdgeSubscriptions(e, p))[s] == here by {
        assert p[k] == actuators[k];
        assert forall i, j :: 0 <= i < j < |p| ==> p[i].id != p[j].id by {
          forall i, j | 0 <= i < j < |p|
            ensures p[i].id != p[j].id
          {
            assert p[i] == actuators[i] && p[j] == actuators[j];
          }
        }
        ExactlyOnce(e, p, k);
      }
      assert multiset(last)[s] == 0 by {
        assert actuators[n].id != actuators[k].id;
      }
    }
  }

  /** Edges other than ACTUATOR edges, and actuator edges that serve no
      actuator, make no subscriptions and raise no error. */
  lemma {:induction false} NoMatchNoSubscription(e: AppEdge, actuators: seq<Actuator>)
    requires e.edgeType != ActuatorEdge || forall k :: 0 <= k < |actuators| ==> !Serves(e, actuators[k])
    ensures EdgeSubscriptions(e, actuators) == []
  {
    EdgeSubscriptionsCount(e, actuators);
  }

  /** The subscriptions of a whole application are those of its edges, in edge order:
      every subscription is one some edge makes, and every one an edge makes is there. */
  lemma SubscriptionsSpec(edges: seq<AppEdge>, actuators: seq<Actuator>)
    ensures forall s :: s in Subscriptions(edges, actuators) <==>
              exists i :: 0 <= i < |edges| && s in EdgeSubscriptions(edges[i], actuators)
  {
    forall s
      ensures s in Subscriptions(edges, actuators) <==>
              exists i :: 0 <= i < |edges| && s in EdgeSubscriptions(edges[i], actuators)
    {
      SubscriptionIn(edges, actuators, s);
    }
  }

  /** SubscriptionsSpec for one subscription. */
  lemma {:induction false} SubscriptionIn(edges: seq<AppEdge>, actuators: seq<Actuator>, s: Subscription)
    ensures s in Subscriptions(edges, actuators) <==>
            exists i :: 0 <= i < |edges| && s in EdgeSubscriptions(edges[i], actuators)
    decreases |edges|
  {
    if edges != [] {
      var n := |edges| - 1;
      var front := edges[..n];
      var last := EdgeSubscriptions(edges[n], actuators);
      assert Subscriptions(edges, actuators) == Subscriptions(front, actuators) + last;
      SubscriptionIn(front, actuators, s);
      if s in Subscriptions(front, actuators) {
        var i :| 0 <= i < n && s in EdgeSubscriptions(front[i], actuators);
        assert edges[i] == front[i];
      } else if s in last {
        assert s in EdgeSubscriptions(edges[n], actuators);
      } else {
        forall i | 0 <= i < |edges|
          ensures s !in EdgeSubscriptions(edges[i], actuators)
        {
          if i < n {
            assert front[i] == edges[i];
          }
        }
      }
    }
  }

  /** Case does not matter: an ACTUATOR edge to "Display" serves an actuator of type "DISPLAY". */
  lemma CaseInsensitiveExample()
    ensures EdgeSubscriptions(AppEdge("m", "Display", "T", ActuatorEdge), [Actuator(7, "a", "DISPLAY")])
              == [Subscription("m", 7, "T")]
  {
    var e := AppEdge("m", "Display", "T", ActuatorEdge);
    var a := Actuator(7, "a", "DISPLAY");
    assert [a][..0] == [];
    assert Serves(e, a) by {
      var t := a.actuatorType;
      var d := e.destination;
      assert |t| == |d| == 7;
      forall i | 0 <= i < 7
        ensures ToLowerAscii(t[i]) == ToLowerAscii(d[i])
      {
      }
    }
  }
}
