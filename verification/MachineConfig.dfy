/**
 Machine configurations as JSON values, and the two edits a rollout makes to them
 (crates/admin/src/machines.rs:377-391 and 549-576).
 */
module MachineConfig {
  import opened Prelude

  datatype Json =
    | Null
    | Bool(b: bool)
    | Num(n: int)
    | Str(s: string)
    | Arr(items: seq<Json>)
    | Obj(fields: map<string, Json>)

  /** `Machine::metadata`: the string entries of `config.metadata`. */
  function Metadata(config: Json): map<string, string> {
    if config.Obj? && "metadata" in config.fields && config.fields["metadata"].Obj? then
      var m := config.fields["metadata"].fields;
      map k | k in m && m[k].Str? :: m[k].s
    else map[]
  }

  function ConfigImage(config: Json): Option<string> {
    if config.Obj? && "image" in config.fields && config.fields["image"].Str? then Some(config.fields["image"].s)
    else None
  }

  /** `with_image`: `None` is the error for a configuration that is not an object. */
  function WithImage(config: Json, image: string): Option<Json> {
    if config.Obj? then Some(Obj(config.fields["image" := Str(image)])) else None
  }

  function WithMetadata(config: Json, metadata: map<string, string>): Option<Json> {
    if config.Obj? then Some(Obj(config.fields["metadata" := Obj(map k | k in metadata :: Str(metadata[k]))])) else None
  }

  /** The configuration a machine with configuration `config` is sent to run `image`. */
  function Edited(config: Json, image: string, metadata: map<string, string>): Option<Json> {
    var c := WithImage(config, image);
    if c.None? then None else WithMetadata(c.value, metadata)
  }

  /** `config.metadata` is an object whose values are all strings. */
  predicate StringMetadata(config: Json) {
    && config.Obj? && "metadata" in config.fields && config.fields["metadata"].Obj?
    && forall k :: k in config.fields["metadata"].fields ==> config.fields["metadata"].fields[k].Str?
  }

  /** Edits keep every other field, set the image, and keep the metadata they are given. */
  lemma EditedFields(config: Json, image: string, metadata: map<string, string>)
    requires config.Obj?
    ensures var c := Edited(config, image, metadata);
            && c.Some? && c.value.Obj? && ConfigImage(c.value) == Some(image) && Metadata(c.value) == metadata
            && (forall k :: k != "image" && k != "metadata" ==>
                  (k in c.value.fields <==> k in config.fields)
                  && (k in config.fields ==> c.value.fields[k] == config.fields[k]))
  {
    var c := Edited(config, image, metadata).value;
    assert c.fields["metadata"].fields.Keys == metadata.Keys;
  }

  /** Writing the extracted metadata back changes nothing exactly when all of it could be extracted. */
  lemma MetadataWriteBack(config: Json)
    requires config.Obj?
    ensures WithMetadata(config, Metadata(config)) == Some(config) <==> StringMetadata(config)
  {
    var c := WithMetadata(config, Metadata(config)).value;
    if StringMetadata(config) {
      var m := config.fields["metadata"].fields;
      assert c.fields["metadata"].fields.Keys == m.Keys;
      assert c.fields["metadata"].fields == m;
      assert c.fields == config.fields;
    } else if c == config {
      assert c.fields["metadata"].Obj?;
      assert StringMetadata(c);
    }
  }

  /**
   The rollback edit undoes the update edit if and only if every metadata value is a
   string: whatever else `config.metadata` holds is lost by the update.
   */
  lemma RollbackUndoesUpdateIff(config: Json, image: string, previous: string)
    requires ConfigImage(config) == Some(previous)
    ensures var updated := Edited(config, image, Metadata(config)).value;
            Edited(updated, previous, Metadata(updated)) == Some(config) <==> StringMetadata(config)
  {
    EditedFields(config, image, Metadata(config));
    var updated := Edited(config, image, Metadata(config)).value;
    EditedFields(updated, previous, Metadata(updated));
    var back := Edited(updated, previous, Metadata(updated)).value;
    var written := WithMetadata(config, Metadata(config)).value;
    assert back.fields == written.fields;
    MetadataWriteBack(config);
  }

  /** A configuration with a number among its metadata: the update drops it, and the rollback does not bring it back. */
  lemma NumberInMetadataIsLost(image: string)
    ensures var config := Obj(map["image" := Str("old"), "metadata" := Obj(map["n" := Num(1)])]);
            var updated := Edited(config, image, Metadata(config));
            && ConfigImage(config) == Some("old") && !StringMetadata(config) && updated.Some?
            && Edited(updated.value, "old", Metadata(updated.value)) != Some(config)
  {
    var config := Obj(map["image" := Str("old"), "metadata" := Obj(map["n" := Num(1)])]);
    assert "n" in config.fields["metadata"].fields && !config.fields["metadata"].fields["n"].Str?;
    RollbackUndoesUpdateIff(config, image, "old");
  }
}
