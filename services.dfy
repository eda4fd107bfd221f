/**
 * The services file: a JSON object mapping each service name to a record
 * with its `metadata` and `data`. `list` projects every record to its
 * metadata, `get` looks one up by name. Reading the file is a value: what was
 * found on disk.
 */
module Services {
  import opened Wrappers
  import opened Js
  import opened Cli

  /** What reading the services file found: nothing, text that does not parse, or an object. */
  datatype StoredServices = Missing | Unparseable | Parsed(services: Object)

  /** `readServicesFile()`: any read or parse failure counts as no services. */
  function ReadServicesFile(file: StoredServices): (services: Object)
    ensures file.Parsed? ==> services == file.services
    ensures !file.Parsed? ==> services == []
  {
    if file.Parsed? then file.services else []
  }

  /** The object list builds: each service name mapped to the service's metadata, in file order. */
  function Metadata(services: Object): Object
    decreases |services|
  {
    if services == [] then []
    else
      var last := services[|services| - 1];
      Set(Metadata(services[..|services| - 1]), last.key, Prop(last.val, "metadata"))
  }

  /** Each service in turn, paired with its metadata. */
  function MetadataOf(services: Object): (list: Object)
    ensures |list| == |services|
    ensures forall i :: 0 <= i < |services| ==> list[i] == Member(services[i].key, Prop(services[i].val, "metadata"))
  {
    seq(|services|, i requires 0 <= i < |services| => Member(services[i].key, Prop(services[i].val, "metadata")))
  }

  /** For a parsed file (no name twice) list's object pairs each service, in file order, with its metadata. */
  lemma {:induction false} MetadataInOrder(services: Object)
    requires UniqueKeys(services)
    ensures Metadata(services) == MetadataOf(services)
    decreases |services|
  {
    if services != [] {
      var init := services[..|services| - 1];
      var last := services[|services| - 1];
      assert UniqueKeys(init);
      MetadataInOrder(init);
      var before := MetadataOf(init);
      var entry := Member(last.key, Prop(last.val, "metadata"));
      forall i | 0 <= i < |before| ensures before[i].key != last.key {
        assert before[i].key == services[i].key;
      }
      SetNew(before, last.key, entry.val);
      var all := MetadataOf(services);
      forall i | 0 <= i < |all| ensures (before + [entry])[i] == all[i] {
        if i < |before| {
          assert init[i] == services[i];
        }
      }
      assert before + [entry] == all;
    }
  }

  /** The listing has exactly the file's service names, in the file's order. */
  lemma MetadataKeys(services: Object)
    requires UniqueKeys(services)
    ensures Keys(Metadata(services)) == Keys(services)
  {
    MetadataInOrder(services);
  }

  /** Each listed name maps to that service's metadata. */
  lemma MetadataGet(services: Object, name: string)
    requires UniqueKeys(services)
    ensures Get(Metadata(services), name) == if HasKey(services, name) then Prop(Get(services, name), "metadata") else Undefined
  {
    MetadataInOrder(services);
    var list := MetadataOf(services);
    if HasKey(services, name) {
      var i :| 0 <= i < |services| && Keys(services)[i] == name;
      GetAt(services, i);
      GetAt(list, i);
    } else {
      GetAbsent(list, name);
    }
  }

  /** A file with services lists something. */
  lemma MetadataNonEmpty(services: Object)
    requires services != []
    ensures Metadata(services) != []
  {
    var init := Metadata(services[..|services| - 1]);
    var last := services[|services| - 1];
    SetHasKey(init, last.key, Prop(last.val, "metadata"), last.key);
  }

  /**
   * `list(options, cb)`: the metadata of every service, or null when there
   * are none. A service record that is null makes `service.metadata` throw.
   */
  method List(file: StoredServices) returns (crashed: bool, reply: Value)
    ensures var services := ReadServicesFile(file);
      crashed <==> exists i :: 0 <= i < |services| && IsNullish(services[i].val)
    ensures !crashed ==>
      var services := ReadServicesFile(file);
      reply == if services == [] then Null else Obj(Metadata(services))
  {
    var services := ReadServicesFile(file);
    var list: Object := [];
    var i := 0;
    while i < |services|
      invariant 0 <= i <= |services|
      invariant list == Metadata(services[..i])
      invariant forall j :: 0 <= j < i ==> !IsNullish(services[j].val)
    {
      var service := services[i];
      if IsNullish(service.val) {
        return true, Undefined;
      }
      assert services[..i + 1][..i] == services[..i];
      list := Set(list, service.key, Prop(service.val, "metadata"));
      i := i + 1;
    }
    assert services[..|services|] == services;
    if services != [] {
      MetadataNonEmpty(services);
    }
    crashed := false;
    reply := if |list| > 0 then Obj(list) else Null;
  }

  /** `get(name, options, cb)`: the named service, or "Service <name> not found." when it is missing or falsy. */
  function GetService(file: StoredServices, name: string): (c: Completion)
    ensures c.err.None? <==> Truthy(Get(ReadServicesFile(file), name))
    ensures c.err.None? ==> c.reply == Get(ReadServicesFile(file), name)
    ensures c.err.Some? ==> c.err.value == "Service " + name + " not found." && c.reply == Undefined
  {
    var service := Get(ReadServicesFile(file), name);
    if !Truthy(service) then Completion(Some("Service " + name + " not found."), Undefined)
    else Completion(None, service)
  }

  /** Every service get finds is one list shows, with the metadata list shows for it. */
  lemma GetAgreesWithList(services: Object, name: string)
    requires UniqueKeys(services)
    requires GetService(Parsed(services), name).err.None?
    ensures HasKey(Metadata(services), name)
    ensures Get(Metadata(services), name) == Prop(GetService(Parsed(services), name).reply, "metadata")
  {
    MetadataKeys(services);
    MetadataGet(services, name);
  }
}
