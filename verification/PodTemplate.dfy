/**
 * The pod template of a Deployment as it lies in memory: every container has slices of its own, and the upserts
 * behind SetAnubisPolicy write into them. What they compute is said by `Upsert` and `Wire` on values.
 */
module PodTemplates {
  import opened Anubis

  /** The loop shared by upsertEnv, upsertVolumeMount and upsertConfigMapVolume: in place, or appended to a longer slice. */
  method UpsertInPlace<T>(entries: array<Named<T>>, x: Named<T>) returns (r: array<Named<T>>)
    modifies entries
    ensures r[..] == Upsert(old(entries[..]), x)
    ensures if First(old(entries[..]), x.name).Some? then r == entries else fresh(r)
  {
    for i := 0 to entries.Length
      invariant entries[..] == old(entries[..])
      invariant forall k :: 0 <= k < i ==> entries[k].name != x.name
    {
      if entries[i].name == x.name {
        UpsertAt(entries[..], x, i);
        entries[i] := x;
        return entries;
      }
    }
    UpsertAt(entries[..], x, entries.Length);
    r := NewSlice(entries[..] + [x]);
  }

  /** Where the first entry of the name stands, or behind the last: there x goes. */
  lemma {:induction false} UpsertAt<T>(xs: seq<Named<T>>, x: Named<T>, i: nat)
    requires i <= |xs| && (forall k :: 0 <= k < i ==> xs[k].name != x.name) && (i < |xs| ==> xs[i].name == x.name)
    ensures Upsert(xs, x) == if i < |xs| then xs[i := x] else xs + [x]
    ensures First(xs, x.name).Some? <==> i < |xs|
  {
    if i > 0 {
      UpsertAt(xs[1..], x, i - 1);
      assert xs == [xs[0]] + xs[1..];
    }
  }

  method NewSlice<T>(xs: seq<T>) returns (a: array<T>)
    ensures fresh(a) && a[..] == xs
  {
    a := new T[|xs|](i requires 0 <= i < |xs| => xs[i]);
  }

  /** The containers but for their slices, and for each of them its two slices. */
  class PodTemplate {
    const shells: seq<PodContainer>
    var envs: seq<array<Named<EnvBody>>>
    var mounts: seq<array<Named<MountBody>>>
    var volumes: array<Named<VolumeBody>>
    const rest: string

    /** No two containers share a slice. */
    ghost predicate Valid()
      reads this
    {
      && |envs| == |mounts| == |shells|
      && (forall i, j :: 0 <= i < j < |envs| ==> envs[i] != envs[j])
      && (forall i, j :: 0 <= i < j < |mounts| ==> mounts[i] != mounts[j])
    }

    function Slot(i: nat): PodContainer
      requires |envs| == |mounts| == |shells| && i < |shells|
      reads this, envs, mounts
    {
      shells[i].(env := envs[i][..], mounts := mounts[i][..])
    }

    function Value(): Template
      requires |envs| == |mounts| == |shells|
      reads this, envs, mounts, volumes
    {
      Template(seq(|shells|, i requires 0 <= i < |shells| && |envs| == |mounts| == |shells| reads this, envs, mounts => Slot(i)),
               volumes[..], rest)
    }

    constructor (shells: seq<PodContainer>, envs: seq<array<Named<EnvBody>>>, mounts: seq<array<Named<MountBody>>>,
                 volumes: array<Named<VolumeBody>>, rest: string)
      ensures this.shells == shells && this.envs == envs && this.mounts == mounts
      ensures this.volumes == volumes && this.rest == rest
    {
      this.shells, this.envs, this.mounts, this.volumes, this.rest := shells, envs, mounts, volumes, rest;
    }

    /** One container of SetAnubisPolicy's loop: the other containers' slices are not touched. */
    method WireSlot(i: nat)
      requires Valid() && i < |shells|
      modifies this`envs, this`mounts, envs[i], mounts[i]
      ensures Valid() && Slot(i) == WireContainer(old(Slot(i)))
      ensures forall k :: 0 <= k < |shells| && k != i ==>
        envs[k] == old(envs[k]) && mounts[k] == old(mounts[k]) && Slot(k) == old(Slot(k))
    {
      var env := UpsertInPlace(envs[i], Named(POLICY_ENV, POLICY_PATH));
      var mount := UpsertInPlace(mounts[i], Named(POLICY_VOLUME, POLICY_MOUNT));
      envs, mounts := envs[i := env], mounts[i := mount];
    }

    /** The first n containers are wired, the others as they were. */
    ghost predicate WiredTo(cs: seq<PodContainer>, container: string, n: nat)
      reads this, envs, mounts
    {
      && Valid() && |cs| == |shells|
      && forall k :: 0 <= k < |cs| ==> Slot(k) == if k < n then WiredSlots(cs, container)[k] else cs[k]
    }

    /** One turn of the container loop. */
    method WireNext(i: nat, container: string, ghost cs: seq<PodContainer>)
      requires WiredTo(cs, container, i) && i < |shells|
      modifies this`envs, this`mounts, envs[i], mounts[i]
      ensures WiredTo(cs, container, i + 1)
      ensures forall k :: i < k < |shells| ==> envs[k] == old(envs[k]) && mounts[k] == old(mounts[k])
    {
      assert Slot(i) == cs[i];
      if shells[i].name == container { WireSlot(i); }
    }

    /** The container loop of SetAnubisPolicy. */
    method WireSlots(container: string) returns (found: bool)
      requires Valid()
      modifies this`envs, this`mounts, envs, mounts
      ensures WiredTo(old(Value()).containers, container, |shells|)
      ensures found <==> AnyNamed(old(Value()).containers, container)
    {
      ghost var cs := Value().containers;
      found := false;
      for i := 0 to |shells|
        invariant WiredTo(cs, container, i)
        invariant found <==> exists k :: 0 <= k < i && cs[k].name == container
        invariant forall k :: i <= k < |cs| ==> envs[k] == old(envs[k]) && mounts[k] == old(mounts[k])
      {
        assert Slot(i) == cs[i];
        found := found || shells[i].name == container;
        WireNext(i, container, cs);
      }
    }

    /** What SetAnubisPolicy does to the object it was handed: nothing if the container is not there. */
    method SetPolicy(container: string, configMap: string) returns (found: bool)
      requires Valid()
      modifies this, envs, mounts, volumes
      ensures Valid() && (found <==> old(HasContainer(Value(), container)))
      ensures Value() == if found then Wire(old(Value()), container, configMap) else old(Value())
      ensures old(First(volumes[..], POLICY_VOLUME)).Some? ==> volumes == old(volumes)
    {
      ghost var t := Value();
      found := WireSlots(container);
      assert Value().containers == WiredSlots(t.containers, container);
      if !found {
        assert WiredSlots(t.containers, container) == t.containers;
        return;
      }
      volumes := UpsertInPlace(volumes, Named(POLICY_VOLUME, FromConfigMap(configMap)));
    }

    /** A copy that shares nothing with this. */
    method DeepCopy() returns (c: PodTemplate)
      requires Valid()
      ensures New(c) && c.Valid() && c.Value() == Value()
    {
      c := Decoded(Value());
    }
  }

  /** It shares nothing with anything there was before. */
  twostate predicate New(new c: PodTemplate)
    reads c
  {
    fresh(c) && fresh(c.volumes) && fresh(c.envs) && fresh(c.mounts)
  }

  /** What the API hands out: a new object for every call. */
  method Decoded(t: Template) returns (c: PodTemplate)
    ensures New(c) && c.Valid() && c.Value() == t
  {
    var envs: seq<array<Named<EnvBody>>>, mounts: seq<array<Named<MountBody>>> := [], [];
    for i := 0 to |t.containers|
      invariant |envs| == |mounts| == i
      invariant forall k :: 0 <= k < i ==> fresh(envs[k]) && envs[k][..] == t.containers[k].env
      invariant forall k :: 0 <= k < i ==> fresh(mounts[k]) && mounts[k][..] == t.containers[k].mounts
      invariant forall k, l :: 0 <= k < l < i ==> envs[k] != envs[l] && mounts[k] != mounts[l]
    {
      var env := NewSlice(t.containers[i].env);
      var mount := NewSlice(t.containers[i].mounts);
      envs, mounts := envs + [env], mounts + [mount];
    }
    var volumes := NewSlice(t.volumes);
    c := new PodTemplate(t.containers, envs, mounts, volumes, t.rest);
  }

  /** The snapshot is a copy: later edits of the object it was taken from do not reach it. */
  method SnapshotThenWire(d: PodTemplate, container: string, configMap: string) returns (snapshot: PodTemplate, found: bool)
    requires d.Valid()
    modifies d, d.envs, d.mounts, d.volumes
    ensures snapshot.Valid() && snapshot.Value() == old(d.Value())
    ensures found ==> d.Valid() && d.Value() == Wire(snapshot.Value(), container, configMap)
  {
    snapshot := d.DeepCopy();
    found := d.SetPolicy(container, configMap);
  }

  /**
   * What the deep copy is for: a copy of the outer struct alone shares the slices, and when Anubis had a policy
   * volume already, wiring the original would point the snapshot at the new ConfigMap too.
   */
  method SharedSlicesLeak(d: PodTemplate, container: string, configMap: string) returns (snapshot: PodTemplate, found: bool)
    requires d.Valid() && HasContainer(d.Value(), container) && First(d.volumes[..], POLICY_VOLUME).Some?
    modifies d, d.envs, d.mounts, d.volumes
    ensures snapshot.volumes[..] == Upsert(old(d.volumes[..]), Named(POLICY_VOLUME, FromConfigMap(configMap)))
  {
    snapshot := new PodTemplate(d.shells, d.envs, d.mounts, d.volumes, d.rest);
    found := d.SetPolicy(container, configMap);
    assert d.Value().volumes == d.volumes[..];
  }
}
