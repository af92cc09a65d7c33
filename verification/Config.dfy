/** The live configuration: the provider list a request or a reload sees. */
module Config {
  import opened Prelude
  import opened TokenBudget

  /**
   * One configured provider together with the identity of its counters. A
   * reload keeps the counters of a provider whose id survives; a removed
   * provider that returns later starts with new ones.
   */
  datatype Backend = Backend(id: string, enabled: bool, hasKey: bool, deployment: string, policy: Policy,
                             counter: nat)
  {
    predicate Usable() {
      enabled && hasKey
    }
  }

  datatype Settings = Settings(id: string, enabled: bool, hasKey: bool, deployment: string, policy: Policy)

  ghost predicate UniqueIds(config: seq<Backend>) {
    forall i, j :: 0 <= i < j < |config| ==> config[i].id != config[j].id
  }

  function Find(config: seq<Backend>, id: string): (found: Option<Backend>)
    ensures found.Some? ==> found.value in config && found.value.id == id
    ensures found.None? <==> forall b :: b in config ==> b.id != id
  {
    if config == [] then None
    else if config[0].id == id then Some(config[0])
    else Find(config[1..], id)
  }

  /** Loading settings: counters are shared with the previous configuration by id. */
  function Load(settings: seq<Settings>, previous: seq<Backend>, next: nat): (config: seq<Backend>)
    ensures |config| == |settings|
    ensures forall i :: 0 <= i < |settings| ==>
      && config[i].id == settings[i].id && config[i].policy == settings[i].policy
      && config[i].enabled == settings[i].enabled && config[i].hasKey == settings[i].hasKey
      && config[i].deployment == settings[i].deployment
      && config[i].counter == (var prior := Find(previous, settings[i].id);
                               if prior.Some? then prior.value.counter else next + i)
  {
    seq(|settings|, i requires 0 <= i < |settings| =>
      var s := settings[i];
      var prior := Find(previous, s.id);
      Backend(s.id, s.enabled, s.hasKey, s.deployment, s.policy, if prior.Some? then prior.value.counter else next + i))
  }

  lemma FindIsUnique(config: seq<Backend>, b: Backend)
    requires UniqueIds(config) && b in config
    ensures Find(config, b.id) == Some(b)
  {
    var found := Find(config, b.id);
    var i :| 0 <= i < |config| && config[i] == b;
    var j :| 0 <= j < |config| && config[j] == found.value;
  }

  /** The first configured provider with an id. */
  ghost predicate IsFirst(config: seq<Backend>, id: string, n: nat) {
    n < |config| && config[n].id == id && forall i :: 0 <= i < n ==> config[i].id != id
  }

  lemma {:induction false} FindIsFirst(config: seq<Backend>, id: string, n: nat)
    requires IsFirst(config, id, n)
    ensures Find(config, id) == Some(config[n])
  {
    if n == 0 {
    } else {
      assert forall i :: 0 <= i < |config| - 1 ==> config[1..][i] == config[i + 1];
      FindIsFirst(config[1..], id, n - 1);
    }
  }

  lemma FoundIsFirst(config: seq<Backend>, id: string) returns (n: nat)
    ensures Find(config, id).Some? ==> IsFirst(config, id, n) && Find(config, id) == Some(config[n])
  {
    n := 0;
    if config == [] {
    } else if config[0].id != id {
      n := FoundIsFirst(config[1..], id);
      n := n + 1;
    }
  }
}
