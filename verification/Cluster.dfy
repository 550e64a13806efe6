/** generate_cluster_info of the modelzoo scripts: chief hosts are merged in front of the worker hosts,
    and every process renumbers its own task accordingly. */
module Cluster {

  type Hosts = seq<string>

  datatype Task = Task(kind: string, index: int)

  datatype Role =
    | ConfigError                                                   // exit: no ps or no worker host
    | ParameterServer(serverIndex: int)                             // joins and never returns
    | Worker(psHosts: Hosts, workerHosts: Hosts, index: int, isChief: bool)
    | TaskError                                                     // exit: unknown task type

  function HostsOf(cluster: map<string, Hosts>, key: string): Hosts {
    if key in cluster then cluster[key] else []
  }

  function Merged(cluster: map<string, Hosts>): Hosts {
    HostsOf(cluster, "chief") + HostsOf(cluster, "worker")
  }

  function NewIndex(cluster: map<string, Hosts>, task: Task): int {
    task.index + if task.kind == "worker" && HostsOf(cluster, "chief") != [] then 1 else 0
  }

  /** What the configuration says of one process. */
  function RoleOf(cluster: map<string, Hosts>, task: Task): Role {
    if HostsOf(cluster, "ps") == [] || Merged(cluster) == [] then ConfigError
    else if task.kind == "ps" then ParameterServer(task.index)
    else if task.kind == "worker" || task.kind == "chief" then
      Worker(HostsOf(cluster, "ps"), Merged(cluster), NewIndex(cluster, task), NewIndex(cluster, task) == 0)
    else TaskError
  }

  /** The items of a JSON object, in any order. */
  ghost predicate ItemsOf(items: seq<(string, Hosts)>, cluster: map<string, Hosts>) {
    && (forall i :: 0 <= i < |items| ==> items[i].0 in cluster && cluster[items[i].0] == items[i].1)
    && (forall k :: k in cluster ==> exists i :: 0 <= i < |items| && items[i].0 == k)
  }

  ghost predicate Seen(items: seq<(string, Hosts)>, key: string) {
    exists i :: 0 <= i < |items| && items[i].0 == key
  }

  /** The hosts listed under a key; none if there is no such item. */
  ghost predicate Listed(items: seq<(string, Hosts)>, key: string, hosts: Hosts) {
    || (exists i :: 0 <= i < |items| && items[i] == (key, hosts))
    || (hosts == [] && forall i :: 0 <= i < |items| ==> items[i].0 != key)
  }

  lemma ListedIsHostsOf(items: seq<(string, Hosts)>, cluster: map<string, Hosts>, key: string, hosts: Hosts)
    requires ItemsOf(items, cluster)
    ensures Listed(items, key, hosts) <==> hosts == HostsOf(cluster, key)
  {
    if key in cluster {
      var i :| 0 <= i < |items| && items[i].0 == key;
      assert items[i] == (key, cluster[key]);
    }
  }

  /** What a process must be told, from the hosts listed under each key and its own task. */
  ghost predicate RightRole(ps: Hosts, worker: Hosts, chief: Hosts, task: Task, role: Role) {
    && (role.ConfigError? <==> ps == [] || (worker == [] && chief == []))
    && (role.ParameterServer? <==> !role.ConfigError? && task.kind == "ps")
    && (role.Worker? <==> !role.ConfigError? && (task.kind == "worker" || task.kind == "chief"))
    && (role.ParameterServer? ==> role.serverIndex == task.index)
    && (role.Worker? ==>
          && role.psHosts == ps
          && role.workerHosts == chief + worker
          && (role.isChief <==> role.index == 0))
    && (role.Worker? && task.kind == "chief" ==>
          && role.index == task.index
          && (0 <= task.index < |chief| ==> OwnHost(role, chief[task.index])))
    && (role.Worker? && task.kind == "worker" ==>
          && (chief == [] ==> role.index == task.index)
          && (chief != [] ==> role.index == task.index + 1)
          && (0 <= task.index < |worker| && |chief| <= 1 ==> OwnHost(role, worker[task.index])))
  }

  /** The index points at this host in the merged list. */
  predicate OwnHost(role: Role, host: string)
    requires role.Worker?
  {
    0 <= role.index < |role.workerHosts| && role.workerHosts[role.index] == host
  }

  lemma RoleIsRight(cluster: map<string, Hosts>, task: Task)
    ensures RightRole(HostsOf(cluster, "ps"), HostsOf(cluster, "worker"), HostsOf(cluster, "chief"), task,
                      RoleOf(cluster, task))
  {}

  method GenerateClusterInfo(items: seq<(string, Hosts)>, task: Task, ghost cluster: map<string, Hosts>)
    returns (role: Role)
    requires ItemsOf(items, cluster)
    ensures role == RoleOf(cluster, task)
    ensures forall ps, worker, chief ::
      Listed(items, "ps", ps) && Listed(items, "worker", worker) && Listed(items, "chief", chief) ==>
        RightRole(ps, worker, chief, task, role)
  {
    forall ps, worker, chief |
      Listed(items, "ps", ps) && Listed(items, "worker", worker) && Listed(items, "chief", chief)
      ensures RightRole(ps, worker, chief, task, RoleOf(cluster, task))
    {
      ListedIsHostsOf(items, cluster, "ps", ps);
      ListedIsHostsOf(items, cluster, "worker", worker);
      ListedIsHostsOf(items, cluster, "chief", chief);
      RoleIsRight(cluster, task);
    }
    var psHosts, workerHosts, chiefHosts := FindHosts(items, cluster);
    if chiefHosts != [] {
      workerHosts := chiefHosts + workerHosts;
    }
    assert workerHosts == Merged(cluster);
    if psHosts == [] || workerHosts == [] {
      return ConfigError;
    }
    var taskType := task.kind;
    var taskIndex := task.index + if taskType == "worker" && chiefHosts != [] then 1 else 0;
    if taskType == "chief" {
      taskType := "worker";
    }
    var isChief := taskIndex == 0;
    if taskType == "ps" {
      role := ParameterServer(taskIndex);
    } else if taskType == "worker" {
      role := Worker(psHosts, workerHosts, taskIndex, isChief);
    } else {
      role := TaskError;
    }
  }

  method FindHosts(items: seq<(string, Hosts)>, ghost cluster: map<string, Hosts>)
    returns (ps: Hosts, worker: Hosts, chief: Hosts)
    requires ItemsOf(items, cluster)
    ensures ps == HostsOf(cluster, "ps") && worker == HostsOf(cluster, "worker") && chief == HostsOf(cluster, "chief")
  {
    ps, worker, chief := [], [], [];
    for n := 0 to |items|
      invariant ps == (if Seen(items[..n], "ps") then HostsOf(cluster, "ps") else [])
      invariant worker == (if Seen(items[..n], "worker") then HostsOf(cluster, "worker") else [])
      invariant chief == (if Seen(items[..n], "chief") then HostsOf(cluster, "chief") else [])
    {
      var (key, value) := items[n];
      SeenStep(items, n, "ps");
      SeenStep(items, n, "worker");
      SeenStep(items, n, "chief");
      if key == "ps" {
        ps := value;
      } else if key == "worker" {
        worker := value;
      } else if key == "chief" {
        chief := value;
      }
    }
    assert items[..|items|] == items;
  }

  lemma SeenStep(items: seq<(string, Hosts)>, n: nat, key: string)
    requires n < |items|
    ensures Seen(items[..n + 1], key) <==> Seen(items[..n], key) || items[n].0 == key
  {
    var more, now := items[..n + 1], items[..n];
    if Seen(now, key) {
      var i :| 0 <= i < |now| && now[i].0 == key;
      assert more[i].0 == key;
    }
    if items[n].0 == key {
      assert more[n].0 == key;
    }
    if Seen(more, key) {
      var i :| 0 <= i < |more| && more[i].0 == key;
      assert i < n ==> now[i].0 == key;
    }
  }

  // ---------- what the renumbering keeps ----------

  /** A training process of the cluster: a chief or worker task with a host of its own. */
  predicate TrainingTask(cluster: map<string, Hosts>, t: Task) {
    (t.kind == "chief" || t.kind == "worker") && 0 <= t.index < |HostsOf(cluster, t.kind)|
  }

  /** Where the merged list holds the host of a task. */
  function Position(cluster: map<string, Hosts>, t: Task): (p: nat)
    requires TrainingTask(cluster, t)
    ensures p < |Merged(cluster)| && Merged(cluster)[p] == HostsOf(cluster, t.kind)[t.index]
  {
    if t.kind == "chief" then t.index else |HostsOf(cluster, "chief")| + t.index
  }

  ghost predicate IndicesDistinct(cluster: map<string, Hosts>) {
    forall t, u :: TrainingTask(cluster, t) && TrainingTask(cluster, u) && t != u
      ==> NewIndex(cluster, t) != NewIndex(cluster, u)
  }

  ghost predicate IndicesPointHome(cluster: map<string, Hosts>) {
    forall t :: TrainingTask(cluster, t) ==> NewIndex(cluster, t) == Position(cluster, t)
  }

  /** The shift is by one whatever the number of chiefs, so the new numbers are distinct, and point at the
      task's own host in the merged list, exactly for clusters with at most one chief or without workers. */
  lemma RenumberingSoundIff(cluster: map<string, Hosts>)
    ensures IndicesDistinct(cluster)
            <==> |HostsOf(cluster, "chief")| <= 1 || HostsOf(cluster, "worker") == []
    ensures IndicesPointHome(cluster)
            <==> |HostsOf(cluster, "chief")| <= 1 || HostsOf(cluster, "worker") == []
  {
    var c, w := |HostsOf(cluster, "chief")|, |HostsOf(cluster, "worker")|;
    if c <= 1 || w == 0 {
      assert IndicesPointHome(cluster);
      forall t, u | TrainingTask(cluster, t) && TrainingTask(cluster, u) && t != u
        ensures NewIndex(cluster, t) != NewIndex(cluster, u)
      {
        assert NewIndex(cluster, t) == Position(cluster, t) && NewIndex(cluster, u) == Position(cluster, u);
      }
    } else {
      var chief, worker := Task("chief", 1), Task("worker", 0);
      assert TrainingTask(cluster, chief) && TrainingTask(cluster, worker);
      assert NewIndex(cluster, chief) == 1 == NewIndex(cluster, worker);
      assert Position(cluster, worker) == c;
    }
  }

  /** In every accepted configuration exactly one training process becomes the chief, however many
      chief hosts there are. */
  lemma ExactlyOneChief(cluster: map<string, Hosts>) returns (leader: Task)
    requires HostsOf(cluster, "ps") != [] && Merged(cluster) != []
    ensures TrainingTask(cluster, leader)
    ensures forall t :: TrainingTask(cluster, t) ==>
      RoleOf(cluster, t).Worker? && (RoleOf(cluster, t).isChief <==> t == leader)
  {
    leader := if HostsOf(cluster, "chief") != [] then Task("chief", 0) else Task("worker", 0);
  }

  /** The roles handed out point every training process at its own host, and at different positions, exactly for
      clusters with at most one chief or without workers. */
  lemma RolesSoundIff(cluster: map<string, Hosts>)
    requires HostsOf(cluster, "ps") != [] && Merged(cluster) != []
    ensures (forall t :: TrainingTask(cluster, t) ==>
               RoleOf(cluster, t).Worker? && OwnIndex(cluster, RoleOf(cluster, t), t))
            <==> |HostsOf(cluster, "chief")| <= 1 || HostsOf(cluster, "worker") == []
    ensures (forall t, u :: TrainingTask(cluster, t) && TrainingTask(cluster, u) && t != u ==>
               RoleIndex(cluster, t) != RoleIndex(cluster, u))
            <==> |HostsOf(cluster, "chief")| <= 1 || HostsOf(cluster, "worker") == []
  {
    RenumberingSoundIff(cluster);
    assert forall t :: TrainingTask(cluster, t) ==>
      RoleOf(cluster, t).Worker? && RoleIndex(cluster, t) == NewIndex(cluster, t);
    if forall t :: TrainingTask(cluster, t) ==> OwnIndex(cluster, RoleOf(cluster, t), t) {
      assert IndicesPointHome(cluster);
    }
  }

  function RoleIndex(cluster: map<string, Hosts>, t: Task): int {
    var role := RoleOf(cluster, t);
    if role.Worker? then role.index else -1
  }

  predicate OwnIndex(cluster: map<string, Hosts>, role: Role, t: Task)
    requires TrainingTask(cluster, t)
  {
    role.Worker? && role.index == Position(cluster, t)
  }
}
