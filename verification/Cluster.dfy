/**
 The Kubernetes API as the store sees it: labelled Deployments and Services by name. Any call may
 fail, and a failed call has no effect.
 */
module Cluster {
  import opened Wrappers
  import opened Dcm
  import opened KubeObjects

  datatype ApiError = Unavailable | AlreadyExists | ObjectNotFound

  datatype State = State(deployments: map<string, Deployment>, services: map<string, Service>)

  ghost predicate WellNamed(st: State) {
    && (forall n :: n in st.deployments ==> st.deployments[n].name == n)
    && (forall n :: n in st.services ==> st.services[n].name == n)
  }

  // Exactly the objects that match, each once, in any order.
  ghost predicate ListsDeployments(items: seq<Deployment>, st: State, selector: LabelMap) {
    && (forall d :: d in items <==> d.name in st.deployments && st.deployments[d.name] == d && Matches(d.labels, selector))
    && (forall i, j :: 0 <= i < j < |items| ==> items[i].name != items[j].name)
  }

  ghost predicate ListsServices(items: seq<Service>, st: State, selector: LabelMap) {
    && (forall s :: s in items <==> s.name in st.services && st.services[s.name] == s && Matches(s.labels, selector))
    && (forall i, j :: 0 <= i < j < |items| ==> items[i].name != items[j].name)
  }

  class Client {
    var deployments: map<string, Deployment>
    var services: map<string, Service>
    ghost var trace: seq<State>  // the states the calls so far have led to

    function View(): State
      reads this
    {
      State(deployments, services)
    }

    constructor ()
      ensures View() == State(map[], map[]) && trace == []
    {
      deployments, services := map[], map[];
      trace := [];
    }

    method ListDeployments(selector: LabelMap, fails: bool) returns (r: Result<seq<Deployment>, ApiError>)
      requires WellNamed(View())
      ensures if fails then r == Err(Unavailable) else r.Ok?
      ensures r.Ok? ==> ListsDeployments(r.value, View(), selector)
    {
      if fails {
        return Err(Unavailable);
      }
      var items: seq<Deployment> := [];
      var rest := deployments.Keys;
      while rest != {}
        invariant rest <= deployments.Keys
        invariant forall d :: d in items <==>
                    d.name in deployments && d.name !in rest && deployments[d.name] == d && Matches(d.labels, selector)
        invariant forall i, j :: 0 <= i < j < |items| ==> items[i].name != items[j].name
        decreases rest
      {
        var n :| n in rest;
        if Matches(deployments[n].labels, selector) {
          assert forall i :: 0 <= i < |items| ==> items[i] in items;
          items := items + [deployments[n]];
        }
        rest := rest - {n};
      }
      return Ok(items);
    }

    method ListServices(selector: LabelMap, fails: bool) returns (r: Result<seq<Service>, ApiError>)
      requires WellNamed(View())
      ensures if fails then r == Err(Unavailable) else r.Ok?
      ensures r.Ok? ==> ListsServices(r.value, View(), selector)
    {
      if fails {
        return Err(Unavailable);
      }
      var items: seq<Service> := [];
      var rest := services.Keys;
      while rest != {}
        invariant rest <= services.Keys
        invariant forall s :: s in items <==>
                    s.name in services && s.name !in rest && services[s.name] == s && Matches(s.labels, selector)
        invariant forall i, j :: 0 <= i < j < |items| ==> items[i].name != items[j].name
        decreases rest
      {
        var n :| n in rest;
        if Matches(services[n].labels, selector) {
          assert forall i :: 0 <= i < |items| ==> items[i] in items;
          items := items + [services[n]];
        }
        rest := rest - {n};
      }
      return Ok(items);
    }

    method CreateDeployment(d: Deployment, fails: bool) returns (r: Result<string, ApiError>)
      modifies this
      ensures r == if fails then Err(Unavailable)
                   else if d.name in old(deployments) then Err(AlreadyExists) else Ok(d.name)
      ensures View() == if r.Ok? then old(View()).(deployments := old(deployments)[d.name := d]) else old(View())
      ensures trace == old(trace) + [View()]
    {
      if fails {
        r := Err(Unavailable);
      } else if d.name in deployments {
        r := Err(AlreadyExists);
      } else {
        deployments := deployments[d.name := d];
        r := Ok(d.name);
      }
      trace := trace + [View()];
    }

    method DeleteDeployment(name: string, fails: bool) returns (r: Result<(), ApiError>)
      modifies this
      ensures r == if fails then Err(Unavailable)
                   else if name !in old(deployments) then Err(ObjectNotFound) else Ok(())
      ensures View() == if r.Ok? then old(View()).(deployments := old(deployments) - {name}) else old(View())
      ensures trace == old(trace) + [View()]
    {
      if fails {
        r := Err(Unavailable);
      } else if name !in deployments {
        r := Err(ObjectNotFound);
      } else {
        deployments := deployments - {name};
        r := Ok(());
      }
      trace := trace + [View()];
    }

    method CreateService(s: Service, fails: bool) returns (r: Result<string, ApiError>)
      modifies this
      ensures r == if fails then Err(Unavailable)
                   else if s.name in old(services) then Err(AlreadyExists) else Ok(s.name)
      ensures View() == if r.Ok? then old(View()).(services := old(services)[s.name := s]) else old(View())
      ensures trace == old(trace) + [View()]
    {
      if fails {
        r := Err(Unavailable);
      } else if s.name in services {
        r := Err(AlreadyExists);
      } else {
        services := services[s.name := s];
        r := Ok(s.name);
      }
      trace := trace + [View()];
    }

    method DeleteService(name: string, fails: bool) returns (r: Result<(), ApiError>)
      modifies this
      ensures r == if fails then Err(Unavailable)
                   else if name !in old(services) then Err(ObjectNotFound) else Ok(())
      ensures View() == if r.Ok? then old(View()).(services := old(services) - {name}) else old(View())
      ensures trace == old(trace) + [View()]
    {
      if fails {
        r := Err(Unavailable);
      } else if name !in services {
        r := Err(ObjectNotFound);
      } else {
        services := services - {name};
        r := Ok(());
      }
      trace := trace + [View()];
    }
  }
}
