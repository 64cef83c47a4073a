/**
 * The video update record and its serialisation into the flat parameter
 * dictionary that an update request sends.
 */
module Models {
  import opened Wrappers
  import opened DotNetString
  import opened Enums

  /** A `Dictionary<string, string>`; a `None` value is a `null` entry. */
  type Parameters = map<string, Option<string>>

  /**
   * What the nested spatial record's `SetParameterValues(parameters, prefix)`
   * does to the dictionary it is handed: given the spatial record, the
   * dictionary so far and the key prefix, the dictionary afterwards.
   */
  type SpatialParameterWriter<!S> = (S, Parameters, string) -> Parameters

  /**
   * The desired new state of a video; every field that is `None` is left
   * unchanged.  `S` is the type of the nested spatial record.
   */
  datatype VideoUpdateMetadata<S> = VideoUpdateMetadata(
    name: Option<string>,
    description: Option<string>,
    privacy: Option<VideoPrivacyEnum>,
    embedPrivacy: Option<VideoEmbedPrivacyEnum>,
    reviewLinkEnabled: Option<bool>,
    password: Option<string>,
    comments: Option<VideoCommentsEnum>,
    allowAddToAlbumChannelGroup: Option<bool>,
    allowDownloadVideo: Option<bool>,
    spatial: Option<S>)

  const NameKey: string := "name"
  const DescriptionKey: string := "description"
  const PrivacyViewKey: string := "privacy.view"
  const PasswordKey: string := "password"
  const PrivacyEmbedKey: string := "privacy.embed"
  const PrivacyCommentsKey: string := "privacy.comments"
  const ReviewPageKey: string := "review_page"
  const PrivacyDownloadKey: string := "privacy.download"
  const PrivacyAddKey: string := "privacy.add"

  /** The prefix handed to the spatial record for its own keys. */
  const SpatialPrefix: string := "spatial"

  /** The keys the record itself writes, in the order it writes them. */
  const FixedKeys: seq<string> := [
    NameKey, DescriptionKey, PrivacyViewKey, PasswordKey, PrivacyEmbedKey,
    PrivacyCommentsKey, ReviewPageKey, PrivacyDownloadKey, PrivacyAddKey]

  /** The text written for an enum value, `value.ToString().ToLower()`, given its identifier. */
  function EnumText(identifier: string): string {
    ToLower(identifier)
  }

  /** The text written for a tri-state boolean that has a value: `value ? "true" : "false"`. */
  function BoolText(b: bool): string {
    if b then "true" else "false"
  }

  /**
   * Row `i` of the parameter table: what the record writes under
   * `FixedKeys[i]` — `Some(v)` when it writes the value `v` there, `None`
   * when the field behind that key is unset and nothing is written.
   */
  function Row<S>(m: VideoUpdateMetadata<S>, i: nat): Option<Option<string>>
    requires i < |FixedKeys|
  {
    if i == 0 then
      if m.name.Some? then Some(Some(Trim(m.name.value))) else None
    else if i == 1 then
      if m.description.Some? then Some(Some(Trim(m.description.value))) else None
    else if i == 2 then
      if m.privacy.Some? then Some(Some(EnumText(m.privacy.value.identifier))) else None
    else if i == 3 then
      if m.privacy == Some(VideoPrivacyEnum.Password) then Some(m.password) else None
    else if i == 4 then
      if m.embedPrivacy.Some? then Some(Some(EnumText(m.embedPrivacy.value.identifier))) else None
    else if i == 5 then
      if m.comments.Some? then Some(Some(EnumText(m.comments.value.identifier))) else None
    else if i == 6 then
      if m.reviewLinkEnabled.Some? then Some(Some(BoolText(m.reviewLinkEnabled.value))) else None
    else if i == 7 then
      if m.allowDownloadVideo.Some? then Some(Some(BoolText(m.allowDownloadVideo.value))) else None
    else
      if m.allowAddToAlbumChannelGroup.Some? then Some(Some(BoolText(m.allowAddToAlbumChannelGroup.value))) else None
  }

  /**
   * The dictionary after the first `n` conditional inserts: the rows of the
   * table for the first `n` fixed keys, written one after the other.
   */
  function Inserted<S>(m: VideoUpdateMetadata<S>, n: nat): Parameters
    requires n <= |FixedKeys|
  {
    if n == 0 then
      map[]
    else
      var p := Inserted(m, n - 1);
      var r := Row(m, n - 1);
      if r.Some? then p[FixedKeys[n - 1] := r.value] else p
  }

  /** The dictionary the record writes before the spatial record adds its own keys. */
  function OwnParameters<S>(m: VideoUpdateMetadata<S>): Parameters {
    Inserted(m, |FixedKeys|)
  }

  /** The table's keys, position by position; a helper for the proofs that walk the table. */
  lemma FixedKeysAre()
    ensures FixedKeys[0] == NameKey && FixedKeys[1] == DescriptionKey && FixedKeys[2] == PrivacyViewKey
    ensures FixedKeys[3] == PasswordKey && FixedKeys[4] == PrivacyEmbedKey && FixedKeys[5] == PrivacyCommentsKey
    ensures FixedKeys[6] == ReviewPageKey && FixedKeys[7] == PrivacyDownloadKey && FixedKeys[8] == PrivacyAddKey
  {
  }

  /**
   * `GetParameterValues`: nine conditional inserts into a fresh dictionary;
   * then, when there is a spatial record, `setParameterValues` (its
   * `SetParameterValues`) writes into the same dictionary under the prefix
   * `"spatial"`.
   */
  method GetParameterValues<S>(m: VideoUpdateMetadata<S>, setParameterValues: SpatialParameterWriter<S>)
    returns (parameters: Parameters)
    ensures m.spatial.None? ==> parameters == OwnParameters(m)
    ensures m.spatial.Some? ==> parameters == setParameterValues(m.spatial.value, OwnParameters(m), SpatialPrefix)
  {
    FixedKeysAre();
    parameters := map[];
    if m.name.Some? {
      parameters := parameters[NameKey := Some(Trim(m.name.value))];
    }
    assert parameters == Inserted(m, 1);
    if m.description.Some? {
      parameters := parameters[DescriptionKey := Some(Trim(m.description.value))];
    }
    assert parameters == Inserted(m, 2);
    if m.privacy.Some? {
      parameters := parameters[PrivacyViewKey := Some(EnumText(m.privacy.value.identifier))];
    }
    assert parameters == Inserted(m, 3);
    if m.privacy == Some(VideoPrivacyEnum.Password) {
      parameters := parameters[PasswordKey := m.password];
    }
    assert parameters == Inserted(m, 4);
    if m.embedPrivacy.Some? {
      parameters := parameters[PrivacyEmbedKey := Some(EnumText(m.embedPrivacy.value.identifier))];
    }
    assert parameters == Inserted(m, 5);
    if m.comments.Some? {
      parameters := parameters[PrivacyCommentsKey := Some(EnumText(m.comments.value.identifier))];
    }
    assert parameters == Inserted(m, 6);
    if m.reviewLinkEnabled.Some? {
      parameters := parameters[ReviewPageKey := Some(BoolText(m.reviewLinkEnabled.value))];
    }
    assert parameters == Inserted(m, 7);
    if m.allowDownloadVideo.Some? {
      parameters := parameters[PrivacyDownloadKey := Some(BoolText(m.allowDownloadVideo.value))];
    }
    assert parameters == Inserted(m, 8);
    if m.allowAddToAlbumChannelGroup.Some? {
      parameters := parameters[PrivacyAddKey := Some(BoolText(m.allowAddToAlbumChannelGroup.value))];
    }
    assert parameters == Inserted(m, 9);
    if m.spatial.Some? {
      parameters := setParameterValues(m.spatial.value, parameters, SpatialPrefix);
    }
  }
}
