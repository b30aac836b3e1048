/** The objects of a cluster-scoped kind as their controller sees them, and how it reports on one. */
module SingletonApi {
  import opened Objects
  import opened SingletonRuns

  class ObjectApi<S(==)> {
    var objects: map<string, Object<S>>
    var faults: nat  // status writes refused so far

    constructor ()
      ensures objects == map[] && faults == 0
    {
      objects, faults := map[], 0;
    }

    /** A status write, refused by a fault or a conflict, or accepted. */
    method UpdateStatus(name: string, ready: Ready) returns (ok: bool)
      requires name in objects
      modifies this
      ensures objects == if ok then old(objects)[name := old(objects)[name].(ready := ready)] else old(objects)
      ensures faults == old(faults) + (if ok then 0 else 1)
    {
      ok := *;
      if ok {
        objects := objects[name := objects[name].(ready := ready)];
      } else {
        faults := faults + 1;
      }
    }

    /** Reports on an object that was just read. The name is queued again exactly when the write is
        refused or changes the object. */
    method Report(name: string, ready: Ready) returns (retry: bool)
      requires name in objects
      modifies this
      ensures faults == old(faults) + (if retry then 1 else 0)
      ensures var o := old(objects)[name];
        var w := ObjectReported(World(old(objects), {}, None, Idle), name, o, ready, !retry);
        objects == w.objects && (name in w.queue <==> retry || objects != old(objects))
    {
      ghost var before := objects;
      var ok := UpdateStatus(name, ready);
      retry := !ok;
      if ok {
        assert before[name].(ready := before[name].ready) == before[name];
        assert ready == before[name].ready ==> objects == before;
        assert ready != before[name].ready ==> objects[name] != before[name];
      }
    }
  }
}
