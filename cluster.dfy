/**
 * The projection between the cluster database model and the cluster
 * protobuf message (pkg/identityserver/store/cluster.go): `toPB` and
 * `fromPB` walk a field mask and copy only the fields it names, a nil or
 * empty mask standing for the default mask, and `fromPB` reports the
 * database columns it touched.
 *
 * Field masks are sequences of paths; a nil mask and an empty one behave
 * the same and are both the empty sequence. Timestamps are opaque numbers
 * and attributes a string map.
 */
module ClusterStore {

  const NAME_FIELD := "name"
  const DESCRIPTION_FIELD := "description"
  const ATTRIBUTES_FIELD := "attributes"
  const SECRET_FIELD := "secret"
  const CONTACT_INFO_FIELD := "contact_info"

  /** The keys of clusterPBSetters. */
  const PB_SETTER_PATHS: set<string> := {NAME_FIELD, DESCRIPTION_FIELD, ATTRIBUTES_FIELD, SECRET_FIELD}

  /** The keys of clusterModelSetters: the same four paths. */
  const MODEL_SETTER_PATHS: set<string> := {NAME_FIELD, DESCRIPTION_FIELD, ATTRIBUTES_FIELD, SECRET_FIELD}

  /** clusterColumnNames: the columns of the clusters table behind each path. */
  const CLUSTER_COLUMN_NAMES: map<string, seq<string>> := map[
    ATTRIBUTES_FIELD := [],
    CONTACT_INFO_FIELD := [],
    NAME_FIELD := [NAME_FIELD],
    DESCRIPTION_FIELD := [DESCRIPTION_FIELD],
    SECRET_FIELD := ["cluster_secret"]]

  /** The database model, as a value. */
  datatype ClusterModel = ClusterModel(
    clusterID: string,
    name: string,
    description: string,
    attributes: map<string, string>,
    clusterSecret: string,
    createdAt: int,
    updatedAt: int)

  /** The protobuf message, as a value; contact information is never set from the model. */
  datatype ClusterProto = ClusterProto(
    clusterID: string,
    name: string,
    description: string,
    attributes: map<string, string>,
    secret: string,
    contactInfo: seq<string>,
    createdAt: int,
    updatedAt: int)

  const EMPTY_PROTO := ClusterProto("", "", "", map[], "", [], 0, 0)

  // ---------------------------------------------------------------------------
  // The setter maps and the default mask
  // ---------------------------------------------------------------------------

  /** clusterPBSetters[path] applied to `pb`. */
  function PBSetter(pb: ClusterProto, cls: ClusterModel, path: string): ClusterProto
    requires path in PB_SETTER_PATHS
  {
    if path == NAME_FIELD then pb.(name := cls.name)
    else if path == DESCRIPTION_FIELD then pb.(description := cls.description)
    else if path == ATTRIBUTES_FIELD then pb.(attributes := cls.attributes)
    else pb.(secret := cls.clusterSecret)
  }

  /** clusterModelSetters[path] applied to `cls`. */
  function ModelSetter(cls: ClusterModel, pb: ClusterProto, path: string): ClusterModel
    requires path in MODEL_SETTER_PATHS
  {
    if path == NAME_FIELD then cls.(name := pb.name)
    else if path == DESCRIPTION_FIELD then cls.(description := pb.description)
    else if path == ATTRIBUTES_FIELD then cls.(attributes := pb.attributes)
    else cls.(clusterSecret := pb.secret)
  }

  /**
   * defaultClusterFieldMask: every key of clusterPBSetters exactly once, in
   * whatever order the map iteration of `init` produced.
   */
  predicate IsDefaultMask(paths: seq<string>)
  {
    (forall p :: p in PB_SETTER_PATHS ==> p in paths)
    && (forall i :: 0 <= i < |paths| ==> paths[i] in PB_SETTER_PATHS)
    && (forall i, j :: 0 <= i < j < |paths| ==> paths[i] != paths[j])
  }

  /** The `init` loop: append the keys of clusterPBSetters one by one, in any order. */
  method DefaultClusterFieldMask() returns (paths: seq<string>)
    ensures IsDefaultMask(paths)
    ensures |paths| == |PB_SETTER_PATHS|
  {
    paths := [];
    var remaining := PB_SETTER_PATHS;
    while remaining != {}
      invariant remaining <= PB_SETTER_PATHS
      invariant forall p :: p in PB_SETTER_PATHS ==> p in paths || p in remaining
      invariant forall i :: 0 <= i < |paths| ==> paths[i] in PB_SETTER_PATHS && paths[i] !in remaining
      invariant forall i, j :: 0 <= i < j < |paths| ==> paths[i] != paths[j]
      invariant |paths| + |remaining| == |PB_SETTER_PATHS|
      decreases |remaining|
    {
      var path :| path in remaining;
      paths := paths + [path];
      remaining := remaining - {path};
    }
  }

  /** The mask toPB and fromPB walk: the given one, or the default when it is nil or empty. */
  function EffectiveMask(fieldMask: seq<string>, defaultMask: seq<string>): seq<string>
  {
    if |fieldMask| == 0 then defaultMask else fieldMask
  }

  // ---------------------------------------------------------------------------
  // toPB and fromPB on values
  // ---------------------------------------------------------------------------

  /** The loop of toPB over `paths`, in order: each path with a setter sets its field. */
  function ApplyPBSetters(pb: ClusterProto, cls: ClusterModel, paths: seq<string>): ClusterProto
    decreases |paths|
  {
    if |paths| == 0 then pb
    else
      var pb' := ApplyPBSetters(pb, cls, paths[..|paths| - 1]);
      var path := paths[|paths| - 1];
      if path in PB_SETTER_PATHS then PBSetter(pb', cls, path) else pb'
  }

  /** One more pass of toPB's loop. */
  lemma ApplyPBSettersNext(pb: ClusterProto, cls: ClusterModel, paths: seq<string>, k: nat)
    requires k < |paths|
    ensures ApplyPBSetters(pb, cls, paths[..k + 1]) ==
      if paths[k] in PB_SETTER_PATHS then PBSetter(ApplyPBSetters(pb, cls, paths[..k]), cls, paths[k])
      else ApplyPBSetters(pb, cls, paths[..k])
  {
    assert paths[..k + 1][..k] == paths[..k];
  }

  /** toPB: identifiers and timestamps always, then the fields the mask selects. */
  function ToProto(cls: ClusterModel, pb: ClusterProto, fieldMask: seq<string>, defaultMask: seq<string>): ClusterProto
  {
    var stamped := pb.(clusterID := cls.clusterID, createdAt := cls.createdAt, updatedAt := cls.updatedAt);
    ApplyPBSetters(stamped, cls, EffectiveMask(fieldMask, defaultMask))
  }

  /** The loop of fromPB over `paths`, in order: the model so far and the columns collected so far. */
  function ApplyModelSetters(cls: ClusterModel, pb: ClusterProto, paths: seq<string>): (ClusterModel, seq<string>)
    decreases |paths|
  {
    if |paths| == 0 then (cls, [])
    else
      var (cls', columns) := ApplyModelSetters(cls, pb, paths[..|paths| - 1]);
      var path := paths[|paths| - 1];
      if path in MODEL_SETTER_PATHS then
        (ModelSetter(cls', pb, path),
         columns + (if path in CLUSTER_COLUMN_NAMES then CLUSTER_COLUMN_NAMES[path] else []))
      else (cls', columns)
  }

  /** One more pass of fromPB's loop. */
  lemma ApplyModelSettersNext(cls: ClusterModel, pb: ClusterProto, paths: seq<string>, k: nat)
    requires k < |paths|
    ensures var (cls', columns) := ApplyModelSetters(cls, pb, paths[..k]);
      ApplyModelSetters(cls, pb, paths[..k + 1]) ==
        if paths[k] in MODEL_SETTER_PATHS then
          (ModelSetter(cls', pb, paths[k]),
           columns + (if paths[k] in CLUSTER_COLUMN_NAMES then CLUSTER_COLUMN_NAMES[paths[k]] else []))
        else (cls', columns)
  {
    assert paths[..k + 1][..k] == paths[..k];
  }

  /** fromPB: the model afterwards and the columns it returns. */
  function FromProto(cls: ClusterModel, pb: ClusterProto, fieldMask: seq<string>, defaultMask: seq<string>): (ClusterModel, seq<string>)
  {
    ApplyModelSetters(cls, pb, EffectiveMask(fieldMask, defaultMask))
  }

  // ---------------------------------------------------------------------------
  // The Go objects
  // ---------------------------------------------------------------------------

  /** ttnpb.Cluster, updated in place by toPB. */
  class ClusterPB {
    var clusterID: string
    var name: string
    var description: string
    var attributes: map<string, string>
    var secret: string
    var contactInfo: seq<string>
    var createdAt: int
    var updatedAt: int

    constructor ()
      ensures Value() == EMPTY_PROTO
    {
      clusterID, name, description, attributes := "", "", "", map[];
      secret, contactInfo, createdAt, updatedAt := "", [], 0, 0;
    }

    function Value(): ClusterProto
      reads this
    {
      ClusterProto(clusterID, name, description, attributes, secret, contactInfo, createdAt, updatedAt)
    }
  }

  /** The Cluster model, updated in place by fromPB. */
  class Cluster {
    var clusterID: string
    var name: string
    var description: string
    var attributes: map<string, string>
    var clusterSecret: string
    var createdAt: int
    var updatedAt: int

    /** `Cluster{ClusterID: id}`. */
    constructor (id: string)
      ensures Value() == ClusterModel(id, "", "", map[], "", 0, 0)
    {
      clusterID, name, description, attributes := id, "", "", map[];
      clusterSecret, createdAt, updatedAt := "", 0, 0;
    }

    function Value(): ClusterModel
      reads this
    {
      ClusterModel(clusterID, name, description, attributes, clusterSecret, createdAt, updatedAt)
    }

    /** Calls clusterPBSetters[path]. */
    method SetPBField(pb: ClusterPB, path: string)
      requires path in PB_SETTER_PATHS
      modifies pb
      ensures pb.Value() == PBSetter(old(pb.Value()), Value(), path)
    {
      if path == NAME_FIELD {
        pb.name := name;
      } else if path == DESCRIPTION_FIELD {
        pb.description := description;
      } else if path == ATTRIBUTES_FIELD {
        pb.attributes := attributes;
      } else {
        pb.secret := clusterSecret;
      }
    }

    /**
     * toPB. The receiver is a copy in Go, so the model is left alone;
     * `defaultMask` is defaultClusterFieldMask as `init` built it.
     */
    method ToPB(pb: ClusterPB, fieldMask: seq<string>, defaultMask: seq<string>)
      requires IsDefaultMask(defaultMask)
      modifies pb
      ensures pb.Value() == ToProto(Value(), old(pb.Value()), fieldMask, defaultMask)
    {
      ghost var cls := Value();
      ghost var stamped := old(pb.Value()).(clusterID := cls.clusterID, createdAt := cls.createdAt, updatedAt := cls.updatedAt);
      pb.clusterID, pb.createdAt, pb.updatedAt := clusterID, createdAt, updatedAt;
      assert pb.Value() == stamped;
      var paths := fieldMask;
      if |paths| == 0 {
        paths := defaultMask;
      }
      var k := 0;
      while k < |paths|
        invariant k <= |paths|
        invariant pb.Value() == ApplyPBSetters(stamped, cls, paths[..k])
      {
        var path := paths[k];
        ApplyPBSettersNext(stamped, cls, paths, k);
        if path in PB_SETTER_PATHS {
          SetPBField(pb, path);
        }
        k := k + 1;
      }
      assert paths[..|paths|] == paths;
    }

    /** Calls clusterModelSetters[path]. */
    method SetModelField(pb: ClusterPB, path: string)
      requires path in MODEL_SETTER_PATHS
      modifies this
      ensures Value() == ModelSetter(old(Value()), pb.Value(), path)
    {
      if path == NAME_FIELD {
        name := pb.name;
      } else if path == DESCRIPTION_FIELD {
        description := pb.description;
      } else if path == ATTRIBUTES_FIELD {
        attributes := pb.attributes;
      } else {
        clusterSecret := pb.secret;
      }
    }

    /** fromPB: set the selected fields of the model and return the columns they live in. */
    method FromPB(pb: ClusterPB, fieldMask: seq<string>, defaultMask: seq<string>) returns (columns: seq<string>)
      requires IsDefaultMask(defaultMask)
      modifies this
      ensures (Value(), columns) == FromProto(old(Value()), pb.Value(), fieldMask, defaultMask)
    {
      var paths := fieldMask;
      if |paths| == 0 {
        paths := defaultMask;
      }
      columns := [];
      ghost var cls := Value();
      ghost var proto := pb.Value();
      var k := 0;
      while k < |paths|
        invariant k <= |paths|
        invariant (Value(), columns) == ApplyModelSetters(cls, proto, paths[..k])
      {
        var path := paths[k];
        ApplyModelSettersNext(cls, proto, paths, k);
        if path in MODEL_SETTER_PATHS {
          SetModelField(pb, path);
          if path in CLUSTER_COLUMN_NAMES {
            columns := columns + CLUSTER_COLUMN_NAMES[path];
          }
        }
        k := k + 1;
      }
      assert paths[..|paths|] == paths;
    }
  }

  // ---------------------------------------------------------------------------
  // Properties
  // ---------------------------------------------------------------------------

  /**
   * What toPB's loop does, field by field: a field with a setter takes the
   * model's value exactly when its path is in the mask; every other field,
   * and every unknown path, leaves the message alone.
   */
  lemma {:induction false} ApplyPBSettersFields(pb: ClusterProto, cls: ClusterModel, paths: seq<string>)
    ensures ApplyPBSetters(pb, cls, paths) == pb.(
      name := if NAME_FIELD in paths then cls.name else pb.name,
      description := if DESCRIPTION_FIELD in paths then cls.description else pb.description,
      attributes := if ATTRIBUTES_FIELD in paths then cls.attributes else pb.attributes,
      secret := if SECRET_FIELD in paths then cls.clusterSecret else pb.secret)
    decreases |paths|
  {
    if |paths| > 0 {
      var init := paths[..|paths| - 1];
      assert paths == init + [paths[|paths| - 1]];
      ApplyPBSettersFields(pb, cls, init);
    }
  }

  /** toPB copies the identifiers and timestamps whatever the mask, and the selected fields as above. */
  lemma ToProtoFields(cls: ClusterModel, pb: ClusterProto, fieldMask: seq<string>, defaultMask: seq<string>)
    ensures var paths := EffectiveMask(fieldMask, defaultMask);
      ToProto(cls, pb, fieldMask, defaultMask) == ClusterProto(
        cls.clusterID,
        if NAME_FIELD in paths then cls.name else pb.name,
        if DESCRIPTION_FIELD in paths then cls.description else pb.description,
        if ATTRIBUTES_FIELD in paths then cls.attributes else pb.attributes,
        if SECRET_FIELD in paths then cls.clusterSecret else pb.secret,
        pb.contactInfo,
        cls.createdAt,
        cls.updatedAt)
  {
    var stamped := pb.(clusterID := cls.clusterID, createdAt := cls.createdAt, updatedAt := cls.updatedAt);
    ApplyPBSettersFields(stamped, cls, EffectiveMask(fieldMask, defaultMask));
  }

  /** The model side of fromPB's loop, field by field; the cluster ID and the timestamps are never set. */
  lemma {:induction false} ApplyModelSettersFields(cls: ClusterModel, pb: ClusterProto, paths: seq<string>)
    ensures ApplyModelSetters(cls, pb, paths).0 == cls.(
      name := if NAME_FIELD in paths then pb.name else cls.name,
      description := if DESCRIPTION_FIELD in paths then pb.description else cls.description,
      attributes := if ATTRIBUTES_FIELD in paths then pb.attributes else cls.attributes,
      clusterSecret := if SECRET_FIELD in paths then pb.secret else cls.clusterSecret)
    decreases |paths|
  {
    if |paths| > 0 {
      var init := paths[..|paths| - 1];
      assert paths == init + [paths[|paths| - 1]];
      ApplyModelSettersFields(cls, pb, init);
    }
  }

  /** fromPB never changes the cluster ID or the timestamps, and sets exactly the selected fields. */
  lemma FromProtoFields(cls: ClusterModel, pb: ClusterProto, fieldMask: seq<string>, defaultMask: seq<string>)
    ensures var paths := EffectiveMask(fieldMask, defaultMask);
      FromProto(cls, pb, fieldMask, defaultMask).0 == ClusterModel(
        cls.clusterID,
        if NAME_FIELD in paths then pb.name else cls.name,
        if DESCRIPTION_FIELD in paths then pb.description else cls.description,
        if ATTRIBUTES_FIELD in paths then pb.attributes else cls.attributes,
        if SECRET_FIELD in paths then pb.secret else cls.clusterSecret,
        cls.createdAt,
        cls.updatedAt)
  {
    ApplyModelSettersFields(cls, pb, EffectiveMask(fieldMask, defaultMask));
  }

  /** The column of a path that has one: `name`, `description`, and `cluster_secret` for the secret. */
  function ColumnOf(path: string): string
  {
    if path == SECRET_FIELD then "cluster_secret" else path
  }

  predicate HasColumn(path: string)
  {
    path == NAME_FIELD || path == DESCRIPTION_FIELD || path == SECRET_FIELD
  }

  /**
   * The columns, stated independently of the maps: in mask order, one column
   * for each name, description or secret path; attributes, contact info and
   * unknown paths contribute none.
   */
  function ExpectedColumns(paths: seq<string>): seq<string>
    decreases |paths|
  {
    if |paths| == 0 then []
    else
      var last := paths[|paths| - 1];
      ExpectedColumns(paths[..|paths| - 1]) + (if HasColumn(last) then [ColumnOf(last)] else [])
  }

  /** The columns fromPB returns are the expected ones. */
  lemma {:induction false} ApplyModelSettersColumns(cls: ClusterModel, pb: ClusterProto, paths: seq<string>)
    ensures ApplyModelSetters(cls, pb, paths).1 == ExpectedColumns(paths)
    decreases |paths|
  {
    if |paths| > 0 {
      ApplyModelSettersColumns(cls, pb, paths[..|paths| - 1]);
    }
  }

  /** A column is returned exactly when a path behind it is in the mask. */
  lemma {:induction false} ExpectedColumnsMembers(paths: seq<string>, column: string)
    ensures column in ExpectedColumns(paths) <==> exists p :: p in paths && HasColumn(p) && ColumnOf(p) == column
    decreases |paths|
  {
    if |paths| > 0 {
      var init := paths[..|paths| - 1];
      var last := paths[|paths| - 1];
      assert paths == init + [last];
      ExpectedColumnsMembers(init, column);
      if column in ExpectedColumns(paths) && column !in ExpectedColumns(init) {
        assert last in paths && HasColumn(last) && ColumnOf(last) == column;
      }
      if p :| p in paths && HasColumn(p) && ColumnOf(p) == column {
        if p != last {
          assert p in init;
        }
      }
    }
  }

  /** The number of columns is the number of name, description and secret paths. */
  lemma {:induction false} ExpectedColumnsCount(paths: seq<string>)
    ensures |ExpectedColumns(paths)| == |set k | 0 <= k < |paths| && HasColumn(paths[k])|
    decreases |paths|
  {
    if |paths| > 0 {
      var n := |paths| - 1;
      ExpectedColumnsCount(paths[..n]);
      var before := set k | 0 <= k < n && HasColumn(paths[..n][k]);
      var after := set k | 0 <= k < |paths| && HasColumn(paths[k]);
      if HasColumn(paths[n]) {
        assert after == before + {n};
      } else {
        assert after == before;
      }
    }
  }

  /** With a nil or empty mask, toPB copies every field that has a setter. */
  lemma DefaultMaskCopiesAll(cls: ClusterModel, pb: ClusterProto, defaultMask: seq<string>)
    requires IsDefaultMask(defaultMask)
    ensures ToProto(cls, pb, [], defaultMask) ==
      ClusterProto(cls.clusterID, cls.name, cls.description, cls.attributes, cls.clusterSecret,
                   pb.contactInfo, cls.createdAt, cls.updatedAt)
  {
    ToProtoFields(cls, pb, [], defaultMask);
    assert NAME_FIELD in PB_SETTER_PATHS && DESCRIPTION_FIELD in PB_SETTER_PATHS;
    assert ATTRIBUTES_FIELD in PB_SETTER_PATHS && SECRET_FIELD in PB_SETTER_PATHS;
  }

  /** A mask that repeats no path yields no column twice. */
  lemma {:induction false} ExpectedColumnsDistinct(paths: seq<string>)
    requires forall i, j :: 0 <= i < j < |paths| ==> paths[i] != paths[j]
    ensures var columns := ExpectedColumns(paths);
      forall i, j :: 0 <= i < j < |columns| ==> columns[i] != columns[j]
    decreases |paths|
  {
    if |paths| > 0 {
      var init := paths[..|paths| - 1];
      var last := paths[|paths| - 1];
      ExpectedColumnsDistinct(init);
      if HasColumn(last) {
        ExpectedColumnsMembers(init, ColumnOf(last));
      }
    }
  }

  /** The default mask's columns are `name`, `description` and `cluster_secret`. */
  lemma DefaultMaskColumnNames(defaultMask: seq<string>, c: string)
    requires IsDefaultMask(defaultMask)
    ensures c in ExpectedColumns(defaultMask) <==> c in {"name", "description", "cluster_secret"}
  {
    ExpectedColumnsMembers(defaultMask, c);
    assert NAME_FIELD in PB_SETTER_PATHS && DESCRIPTION_FIELD in PB_SETTER_PATHS && SECRET_FIELD in PB_SETTER_PATHS;
    if c == "name" {
      assert HasColumn(NAME_FIELD) && ColumnOf(NAME_FIELD) == c;
    } else if c == "description" {
      assert HasColumn(DESCRIPTION_FIELD) && ColumnOf(DESCRIPTION_FIELD) == c;
    } else if c == "cluster_secret" {
      assert HasColumn(SECRET_FIELD) && ColumnOf(SECRET_FIELD) == c;
    }
  }

  /**
   * With a nil or empty mask, fromPB sets every field that has a setter and
   * returns its three columns, each once, in the default mask's order.
   */
  lemma DefaultMaskSetsAll(cls: ClusterModel, pb: ClusterProto, defaultMask: seq<string>)
    requires IsDefaultMask(defaultMask)
    ensures FromProto(cls, pb, [], defaultMask).0 ==
      cls.(name := pb.name, description := pb.description, attributes := pb.attributes, clusterSecret := pb.secret)
    ensures var columns := FromProto(cls, pb, [], defaultMask).1;
      (forall c :: c in columns <==> c in {"name", "description", "cluster_secret"})
      && (forall i, j :: 0 <= i < j < |columns| ==> columns[i] != columns[j])
  {
    FromProtoFields(cls, pb, [], defaultMask);
    assert NAME_FIELD in PB_SETTER_PATHS && DESCRIPTION_FIELD in PB_SETTER_PATHS;
    assert ATTRIBUTES_FIELD in PB_SETTER_PATHS && SECRET_FIELD in PB_SETTER_PATHS;
    ApplyModelSettersColumns(cls, pb, defaultMask);
    ExpectedColumnsDistinct(defaultMask);
    forall c {
      DefaultMaskColumnNames(defaultMask, c);
    }
  }

  /**
   * fromPB then toPB with the same mask gives back the input message's name,
   * description and secret for every one of them the mask selects.
   */
  lemma FromThenToProto(cls: ClusterModel, pb: ClusterProto, target: ClusterProto, fieldMask: seq<string>, defaultMask: seq<string>)
    ensures var paths := EffectiveMask(fieldMask, defaultMask);
      var out := ToProto(FromProto(cls, pb, fieldMask, defaultMask).0, target, fieldMask, defaultMask);
      (NAME_FIELD in paths ==> out.name == pb.name)
      && (DESCRIPTION_FIELD in paths ==> out.description == pb.description)
      && (SECRET_FIELD in paths ==> out.secret == pb.secret)
  {
    FromProtoFields(cls, pb, fieldMask, defaultMask);
    ToProtoFields(FromProto(cls, pb, fieldMask, defaultMask).0, target, fieldMask, defaultMask);
  }

  /**
   * CreateCluster: a model holding only the ID, fromPB with a nil mask, the
   * row stored (which sets the timestamps), then toPB with a nil mask into an
   * empty message returns the request's ID, name, description, attributes
   * and secret.
   */
  lemma CreateClusterKeepsFields(pb: ClusterProto, defaultMask: seq<string>, createdAt: int, updatedAt: int)
    requires IsDefaultMask(defaultMask)
    ensures var stored := FromProto(ClusterModel(pb.clusterID, "", "", map[], "", 0, 0), pb, [], defaultMask).0
                            .(createdAt := createdAt, updatedAt := updatedAt);
      ToProto(stored, EMPTY_PROTO, [], defaultMask) ==
        ClusterProto(pb.clusterID, pb.name, pb.description, pb.attributes, pb.secret, [], createdAt, updatedAt)
  {
    var blank := ClusterModel(pb.clusterID, "", "", map[], "", 0, 0);
    DefaultMaskSetsAll(blank, pb, defaultMask);
    var stored := FromProto(blank, pb, [], defaultMask).0.(createdAt := createdAt, updatedAt := updatedAt);
    DefaultMaskCopiesAll(stored, EMPTY_PROTO, defaultMask);
  }
}
