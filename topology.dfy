/** The part of the hwloc topology the backend touches: objects carrying a
    name, a subtype, an ordered list of info attributes and a parent. The
    objects live in an arena owned by the topology; a handle is an index into
    it and handle 0 is the topology root. */
module TopologyTree {
  import opened Options

  /** One `hwloc_obj_add_info()` record: (name, value). */
  type Info = (string, string)

  datatype Obj = Obj(name: string, subtype: string, infos: seq<Info>, parent: Option<nat>)

  /** The root handle (`hwloc_get_root_obj`). */
  const Root: nat := 0

  /** `o` after its info list got `extra` appended. */
  function WithInfos(o: Obj, extra: seq<Info>): (r: Obj)
  {
    o.(infos := o.infos + extra)
  }

  /** A freshly set up Level Zero OS device: coprocessor, subtype "LevelZero",
      first info `Backend=LevelZero`, not yet inserted. */
  function NewOsDev(name: string): (r: Obj)
  {
    Obj(name, "LevelZero", [("Backend", "LevelZero")], None)
  }

  class Topology {
    var objs: seq<Obj>

    ghost predicate Valid()
      reads this
    {
      Root < |objs|
    }

    constructor (existing: seq<Obj>)
      requires Root < |existing|
      ensures Valid() && objs == existing
    {
      objs := existing;
    }

    /** `hwloc_alloc_setup_object()` followed by setting the name, the
        subtype and the `Backend` info. */
    method AllocOsDev(name: string) returns (h: nat)
      requires Valid()
      modifies this
      ensures Valid()
      ensures h == |old(objs)| && objs == old(objs) + [NewOsDev(name)]
    {
      h := |objs|;
      objs := objs + [NewOsDev(name)];
    }

    /** `hwloc_obj_add_info()` of each record of `extra`, in order. */
    method AddInfos(h: nat, extra: seq<Info>)
      requires h < |objs|
      modifies this
      ensures objs == old(objs)[h := WithInfos(old(objs)[h], extra)]
    {
      objs := objs[h := WithInfos(objs[h], extra)];
    }

    /** `hwloc_insert_object_by_parent()`, reduced to the parent it records. */
    method InsertByParent(parent: nat, h: nat)
      requires h < |objs|
      modifies this
      ensures objs == old(objs)[h := old(objs)[h].(parent := Some(parent))]
    {
      objs := objs[h := objs[h].(parent := Some(parent))];
    }
  }
}
