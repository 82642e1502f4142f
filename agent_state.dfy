/** The manager's agent-compatibility helpers: whether two agents advertise the
    same intercept mechanisms, and whether a group of agents backing one
    workload can be intercepted as one unit.

    Two mechanism lists are the same when neither is empty and they hold the
    same mechanism records (name, product and version) the same number of times,
    in any order. The comparison tallies each list into a map from mechanism to
    number of occurrences and compares the two maps. */
module AgentState {

  /** One intercept mechanism an agent advertises. */
  datatype Mechanism = Mechanism(name: string, product: string, version: string)

  /** The parts of an agent's registration that the helpers read. */
  datatype AgentInfo = AgentInfo(name: string, mechanisms: seq<Mechanism>)

  /** The number of occurrences of each mechanism in `s`. */
  function Tally(s: seq<Mechanism>): (t: map<Mechanism, nat>)
    ensures forall m :: m in t <==> m in s
    ensures forall m :: m in t ==> t[m] == multiset(s)[m]
  {
    if s == [] then map[]
    else
      var init := s[..|s| - 1];
      var m := s[|s| - 1];
      assert s == init + [m];
      var t := Tally(init);
      t[m := (if m in t then t[m] else 0) + 1]
  }

  /** Two lists have the same tally exactly when they are permutations of each
      other. */
  lemma TallyEqualIffSameMultiset(a: seq<Mechanism>, b: seq<Mechanism>)
    ensures Tally(a) == Tally(b) <==> multiset(a) == multiset(b)
  {
  }

  /** mechanismsAreTheSame: true iff the first list is non-empty and the two
      lists hold the same mechanisms with the same multiplicities. */
  function MechanismsAreTheSame(a: seq<Mechanism>, b: seq<Mechanism>): (r: bool)
    ensures r <==> a != [] && multiset(a) == multiset(b)
  {
    TallyEqualIffSameMultiset(a, b);
    a != [] && Tally(a) == Tally(b)
  }

  /** agentsAreCompatible: no agents are not compatible, a single agent is, and
      several agents are when each one's mechanisms are the same as the first's. */
  function AgentsAreCompatible(agents: seq<AgentInfo>): (r: bool)
    ensures agents == [] ==> !r
    ensures |agents| == 1 ==> r
  {
    if agents == [] then false
    else if |agents| == 1 then true
    else forall i :: 1 <= i < |agents| ==> MechanismsAreTheSame(agents[0].mechanisms, agents[i].mechanisms)
  }

  // ---------------------------------------------------------------------------
  // Properties of the comparison

  /** Two empty lists are not the same; neither is an empty list and any list. */
  lemma EmptyIsNeverTheSame(a: seq<Mechanism>)
    ensures !MechanismsAreTheSame([], a) && !MechanismsAreTheSame(a, [])
  {
  }

  /** The comparison is symmetric. */
  lemma MechanismsAreTheSameSymmetric(a: seq<Mechanism>, b: seq<Mechanism>)
    ensures MechanismsAreTheSame(a, b) == MechanismsAreTheSame(b, a)
  {
  }

  /** The comparison is transitive. */
  lemma MechanismsAreTheSameTransitive(a: seq<Mechanism>, b: seq<Mechanism>, c: seq<Mechanism>)
    requires MechanismsAreTheSame(a, b) && MechanismsAreTheSame(b, c)
    ensures MechanismsAreTheSame(a, c)
  {
  }

  /** A list is the same as itself with two entries swapped. */
  lemma SameUnderReordering(a: seq<Mechanism>, i: nat, j: nat)
    requires i < j < |a|
    ensures MechanismsAreTheSame(a, a[..i] + [a[j]] + a[i + 1..j] + [a[i]] + a[j + 1..])
  {
    var b := a[..i] + [a[j]] + a[i + 1..j] + [a[i]] + a[j + 1..];
    assert a == a[..i] + [a[i]] + a[i + 1..j] + [a[j]] + a[j + 1..];
    assert multiset(a) == multiset(b);
  }

  /** Adding a duplicate of an advertised mechanism turns "the same" into
      "not the same": multiplicities matter. */
  lemma DuplicateBreaksSameness(a: seq<Mechanism>, b: seq<Mechanism>, m: Mechanism)
    requires MechanismsAreTheSame(a, b) && m in b
    ensures !MechanismsAreTheSame(a, b + [m])
  {
  }

  // ---------------------------------------------------------------------------
  // Properties of agent compatibility

  /** With two or more agents, they are compatible iff every pair of them
      advertises the same mechanisms. */
  lemma CompatibleIffPairwiseSame(agents: seq<AgentInfo>)
    requires |agents| >= 2
    ensures AgentsAreCompatible(agents) <==>
            forall i, j :: 0 <= i < |agents| && 0 <= j < |agents| ==>
              MechanismsAreTheSame(agents[i].mechanisms, agents[j].mechanisms)
  {
    if AgentsAreCompatible(agents) {
      var first := agents[0].mechanisms;
      assert MechanismsAreTheSame(first, agents[1].mechanisms);
      forall i, j | 0 <= i < |agents| && 0 <= j < |agents|
        ensures MechanismsAreTheSame(agents[i].mechanisms, agents[j].mechanisms)
      {
        assert multiset(agents[i].mechanisms) == multiset(first);
        assert multiset(agents[j].mechanisms) == multiset(first);
        assert |multiset(agents[i].mechanisms)| == |multiset(first)| > 0;
      }
    }
  }

  /** One agent whose mechanisms differ from another's makes the whole group
      incompatible. */
  lemma OneMismatchMakesIncompatible(agents: seq<AgentInfo>, i: nat, j: nat)
    requires i < |agents| && j < |agents| && i != j
    requires !MechanismsAreTheSame(agents[i].mechanisms, agents[j].mechanisms)
    ensures !AgentsAreCompatible(agents)
  {
    CompatibleIffPairwiseSame(agents);
  }

  // ---------------------------------------------------------------------------
  // The assertions of the helper tests, on fixture values that satisfy them

  const Tcp := Mechanism("tcp", "OSS", "1.0.0")
  const Http := Mechanism("http", "TelepresencePro", "0.0.1")
  const Httpv2 := Mechanism("httpv2", "TelepresencePro", "0.0.1")
  const Grpc := Mechanism("grpc", "TelepresencePro", "0.0.1")

  const Hello := AgentInfo("hello", [Tcp])
  const HelloPro := AgentInfo("helloPro", [Tcp, Http, Grpc])
  const Demo1 := AgentInfo("demo1", [Tcp, Http])
  const Demo2 := AgentInfo("demo2", [Http, Tcp])

  /** The negative assertions of the mechanism helper test: empty lists, lists of
      different sizes, a substituted mechanism, and a duplicated http family
      member in place of grpc. */
  lemma MechanismHelperNegativeCases()
    ensures !MechanismsAreTheSame([], [])
    ensures !MechanismsAreTheSame(Hello.mechanisms, HelloPro.mechanisms)
    ensures !MechanismsAreTheSame(HelloPro.mechanisms, [Tcp, Grpc, Httpv2])
    ensures !MechanismsAreTheSame(HelloPro.mechanisms, [Tcp, Http, Httpv2])
  {
  }

  /** The positive assertions of the mechanism helper test: the same mechanisms
      in another order, and equal single-element lists. */
  lemma MechanismHelperPositiveCases()
    ensures MechanismsAreTheSame(HelloPro.mechanisms, [Http, Grpc, Tcp])
    ensures MechanismsAreTheSame(Demo1.mechanisms, Demo2.mechanisms)
    ensures MechanismsAreTheSame(Hello.mechanisms, [Tcp])
  {
    assert multiset([Tcp, Http, Grpc]) == multiset([Http, Grpc, Tcp]);
    assert multiset(Demo1.mechanisms) == multiset(Demo2.mechanisms);
  }

  /** The assertions of the agent helper test. */
  lemma AgentHelperCases()
    ensures AgentsAreCompatible([Demo1, Demo2])
    ensures AgentsAreCompatible([Hello])
    ensures AgentsAreCompatible([HelloPro])
    ensures !AgentsAreCompatible([])
    ensures !AgentsAreCompatible([Hello, HelloPro])
  {
    MechanismHelperNegativeCases();
    MechanismHelperPositiveCases();
    assert [Demo1, Demo2][1] == Demo2;
    assert [Hello, HelloPro][1] == HelloPro;
  }
}
