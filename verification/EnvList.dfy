/** Removing an environment by appending into the very slice that is being
    ranged over. Models the loop of DeleteEnv in pkg/command/agent/agent_env.go.
    The array is the backing array of the slice; the slice that the loop leaves
    is a prefix of it. */
module EnvList {

  datatype Env = Env(namespace: string, gitUrl: string)

  function Count(envs: seq<Env>, namespace: string): nat {
    if envs == [] then 0 else (if envs[0].namespace == namespace then 1 else 0) + Count(envs[1..], namespace)
  }

  /** The environments of other namespaces, in order. */
  function Without(envs: seq<Env>, namespace: string): seq<Env> {
    if envs == [] then []
    else (if envs[0].namespace == namespace then [] else [envs[0]]) + Without(envs[1..], namespace)
  }

  lemma {:induction false} WithoutLength(envs: seq<Env>, namespace: string)
    ensures |Without(envs, namespace)| == |envs| - Count(envs, namespace)
  {
    if envs != [] { WithoutLength(envs[1..], namespace); }
  }

  lemma {:induction false} WithoutAbsent(envs: seq<Env>, namespace: string)
    requires forall i :: 0 <= i < |envs| ==> envs[i].namespace != namespace
    ensures Count(envs, namespace) == 0 && Without(envs, namespace) == envs
  {
    if envs != [] { WithoutAbsent(envs[1..], namespace); }
  }

  /** With the first occurrence at p: it is the only one exactly when the
      namespace does not occur later, and then removing it is cutting it out. */
  lemma {:induction false} WithoutFirst(envs: seq<Env>, namespace: string, p: nat)
    requires p < |envs| && envs[p].namespace == namespace
    requires forall i :: 0 <= i < p ==> envs[i].namespace != namespace
    ensures Count(envs, namespace) == 1 + Count(envs[p + 1..], namespace)
    ensures Without(envs, namespace) == envs[..p] + Without(envs[p + 1..], namespace)
  {
    if p > 0 {
      WithoutFirst(envs[1..], namespace, p - 1);
      assert envs[1..][p..] == envs[p + 1..] && envs[..p] == [envs[0]] + envs[1..][..p - 1];
    }
  }

  lemma {:induction false} CountZero(envs: seq<Env>, namespace: string)
    requires Count(envs, namespace) == 0
    ensures forall i :: 0 <= i < |envs| ==> envs[i].namespace != namespace
  {
    if envs != [] {
      CountZero(envs[1..], namespace);
      assert forall i :: 0 < i < |envs| ==> envs[i] == envs[1..][i - 1];
    }
  }

  lemma OnlyOne(envs: seq<Env>, namespace: string, p: nat)
    requires p < |envs| && envs[p].namespace == namespace && Count(envs, namespace) == 1
    requires forall i :: 0 <= i < p ==> envs[i].namespace != namespace
    ensures forall i :: 0 <= i < |envs| && i != p ==> envs[i].namespace != namespace
    ensures Without(envs, namespace) == envs[..p] + envs[p + 1..]
  {
    WithoutFirst(envs, namespace, p);
    CountZero(envs[p + 1..], namespace);
    WithoutAbsent(envs[p + 1..], namespace);
    assert forall i :: p < i < |envs| ==> envs[i] == envs[p + 1..][i - p - 1];
  }

  /** The array after append(envs[0:index], envs[index+1:]...): the later
      elements have moved one place to the left and the last is still there. */
  function Shifted(envs: seq<Env>, index: nat): seq<Env>
    requires index < |envs|
  {
    envs[..index] + envs[index + 1..] + [envs[|envs| - 1]]
  }

  method AppendInPlace(envs: array<Env>, index: nat)
    requires index < envs.Length
    modifies envs
    ensures envs[..] == Shifted(old(envs[..]), index)
  {
    for j := index to envs.Length - 1
      invariant forall i :: 0 <= i < envs.Length ==> envs[i] == if index <= i < j then old(envs[i + 1]) else old(envs[i])
    {
      envs[j] := envs[j + 1];
    }
  }

  /** The loop of DeleteEnv. What it leaves, envs[..length], is the list without
      the namespace if and only if the namespace occurs exactly once (or the
      list is empty): an absent one empties the list, a repeated one is not
      fully removed. */
  method DeleteEnv(envs: array<Env>, namespace: string) returns (length: nat)
    modifies envs
    ensures length == if Count(old(envs[..]), namespace) == 0 then 0 else envs.Length - 1
    ensures envs[..length] == Without(old(envs[..]), namespace) <==>
              Count(old(envs[..]), namespace) == 1 || envs.Length == 0
  {
    ghost var was := envs[..];
    ghost var p := First(was, namespace);
    length := 0;
    for index := 0 to envs.Length
      invariant index <= p ==> length == 0 && envs[..] == was
      invariant index > p ==> length == envs.Length - 1
      invariant index > p && Count(was, namespace) == 1 ==> envs[..] == Shifted(was, p)
    {
      assert envs[index] == envs[..][index];
      if p < |was| && Count(was, namespace) == 1 { OnlyOne(was, namespace, p); }
      if envs[index].namespace == namespace {
        AppendInPlace(envs, index);
        length := envs.Length - 1;
      }
    }
    WithoutLength(was, namespace);
    if p == |was| {
      WithoutAbsent(was, namespace);
    } else if Count(was, namespace) == 1 {
      OnlyOne(was, namespace, p);
      assert envs[..length] == envs[..][..length] == was[..p] + was[p + 1..];
    } else {
      WithoutFirst(was, namespace, p);
    }
  }

  /** An absent namespace: the only environment is lost. */
  method AbsentNamespace(env: Env, namespace: string) returns (left: seq<Env>)
    requires env.namespace != namespace
    ensures left == [] && Without([env], namespace) == [env]
  {
    var envs := new Env[] [env];
    assert envs[..] == [env] && [env][1..] == [];
    var length := DeleteEnv(envs, namespace);
    left := envs[..length];
  }

  /** A namespace listed twice: one of the two stays. */
  method RepeatedNamespace(env: Env) returns (left: seq<Env>)
    ensures |left| == 1 && Without([env, env], env.namespace) == []
  {
    var envs := new Env[] [env, env];
    assert envs[..] == [env, env] && [env, env][1..] == [env] && [env][1..] == [];
    assert Without([env, env], env.namespace) == Without([env], env.namespace) == Without([], env.namespace);
    WithoutLength([env, env], env.namespace);
    var length := DeleteEnv(envs, env.namespace);
    left := envs[..length];
  }

  /** Position of the first occurrence, or the length. */
  ghost function First(envs: seq<Env>, namespace: string): (p: nat)
    ensures p <= |envs| && (p < |envs| ==> envs[p].namespace == namespace)
    ensures forall i :: 0 <= i < p ==> envs[i].namespace != namespace
  {
    if envs == [] || envs[0].namespace == namespace then 0 else 1 + First(envs[1..], namespace)
  }
}
