/**
 * What the parameter dictionary of a video update holds, key by key, and
 * why no insert overwrites another.
 */
module Properties {
  import opened Wrappers
  import opened DotNetString
  import opened Enums
  import opened Models

  /** The position of `key` in `FixedKeys`, or `|FixedKeys|` for any other key. */
  function KeyRank(key: string): nat {
    if key == NameKey then 0
    else if key == DescriptionKey then 1
    else if key == PrivacyViewKey then 2
    else if key == PasswordKey then 3
    else if key == PrivacyEmbedKey then 4
    else if key == PrivacyCommentsKey then 5
    else if key == ReviewPageKey then 6
    else if key == PrivacyDownloadKey then 7
    else if key == PrivacyAddKey then 8
    else 9
  }

  /** `KeyRank` finds each fixed key at its own position and no other key at all. */
  lemma KeyRankFindsKey(key: string)
    ensures KeyRank(key) <= |FixedKeys|
    ensures KeyRank(key) < |FixedKeys| ==> FixedKeys[KeyRank(key)] == key
    ensures key in FixedKeys ==> KeyRank(key) < |FixedKeys|
    ensures forall i :: 0 <= i < |FixedKeys| ==> KeyRank(FixedKeys[i]) == i
  {
  }

  /** The nine fixed keys are pairwise distinct. */
  lemma FixedKeysDistinct()
    ensures forall i, j :: 0 <= i < j < |FixedKeys| ==> FixedKeys[i] != FixedKeys[j]
  {
  }

  /** The table looked up by key: the row of a fixed key, nothing for any other key. */
  function Entry<S>(m: VideoUpdateMetadata<S>, key: string): Option<Option<string>> {
    if KeyRank(key) < |FixedKeys| then Row(m, KeyRank(key)) else None
  }

  /** The table restricted to the first `n` fixed keys. */
  function EntryBefore<S>(m: VideoUpdateMetadata<S>, n: nat, key: string): Option<Option<string>> {
    if KeyRank(key) < n then Entry(m, key) else None
  }

  /** The first `n` inserts write exactly the first `n` rows of the table, each under its own key. */
  lemma {:induction false} InsertedFollowsTable<S>(m: VideoUpdateMetadata<S>, n: nat)
    requires n <= |FixedKeys|
    ensures forall key :: Lookup(Inserted(m, n), key) == EntryBefore(m, n, key)
  {
    if n > 0 {
      InsertedFollowsTable(m, n - 1);
      var p := Inserted(m, n - 1);
      KeyRankFindsKey(FixedKeys[n - 1]);
      forall key
        ensures Lookup(Inserted(m, n), key) == EntryBefore(m, n, key)
      {
        KeyRankFindsKey(key);
        assert Lookup(p, key) == EntryBefore(m, n - 1, key);
      }
    }
  }

  /** No insert overwrites an earlier one: the key of insert `n` is not yet present. */
  lemma InsertAddsNewKey<S>(m: VideoUpdateMetadata<S>, n: nat)
    requires n < |FixedKeys|
    ensures FixedKeys[n] !in Inserted(m, n)
  {
    InsertedFollowsTable(m, n);
    KeyRankFindsKey(FixedKeys[n]);
    assert Lookup(Inserted(m, n), FixedKeys[n]) == EntryBefore(m, n, FixedKeys[n]);
  }

  /** The dictionary the nine inserts build, in the record's order, is the table. */
  lemma OwnParametersFollowTable<S>(m: VideoUpdateMetadata<S>)
    ensures forall key :: Lookup(OwnParameters(m), key) == Entry(m, key)
  {
    InsertedFollowsTable(m, |FixedKeys|);
    forall key
      ensures Lookup(OwnParameters(m), key) == Entry(m, key)
    {
      assert Lookup(OwnParameters(m), key) == EntryBefore(m, |FixedKeys|, key);
    }
  }

  /** `text` is `s` with a white-space prefix and a white-space suffix cut off, and none left at its edges. */
  ghost predicate TrimmedFrom(text: string, s: string) {
    exists i, j :: TrimmedAt(s, i, j) && text == s[i..j]
  }

  /** `text` is `s` with every upper-case ASCII letter lower-cased and nothing else changed. */
  predicate LowerCasedFrom(text: string, s: string) {
    && |text| == |s|
    && IsAsciiLowerCase(text)
    && forall k :: 0 <= k < |s| ==> text[k] == LowerChar(s[k])
  }

  /**
   * The entry a tri-state boolean `b` leads to under `key`: none when `b` is
   * unset, `"true"` exactly when it is `true`, `"false"` exactly when it is `false`.
   */
  predicate BooleanEntry(p: Parameters, key: string, b: Option<bool>) {
    && (key in p <==> b.Some?)
    && (b == Some(true) <==> key in p && p[key] == Some("true"))
    && (b == Some(false) <==> key in p && p[key] == Some("false"))
  }

  /** `name` is written exactly when `Name` is set, and holds `Name` trimmed. */
  lemma NameEntry<S>(m: VideoUpdateMetadata<S>)
    ensures NameKey in OwnParameters(m) <==> m.name.Some?
    ensures m.name.Some? ==> OwnParameters(m)[NameKey] == Some(Trim(m.name.value))
    ensures m.name.Some? ==> TrimmedFrom(OwnParameters(m)[NameKey].value, m.name.value)
  {
    OwnParametersFollowTable(m);
    assert Lookup(OwnParameters(m), NameKey) == Entry(m, NameKey);
    if m.name.Some? {
      TrimCut(m.name.value);
    }
  }

  /** `description` is written exactly when `Description` is set, and holds `Description` trimmed. */
  lemma DescriptionEntry<S>(m: VideoUpdateMetadata<S>)
    ensures DescriptionKey in OwnParameters(m) <==> m.description.Some?
    ensures m.description.Some? ==> OwnParameters(m)[DescriptionKey] == Some(Trim(m.description.value))
    ensures m.description.Some? ==> TrimmedFrom(OwnParameters(m)[DescriptionKey].value, m.description.value)
  {
    OwnParametersFollowTable(m);
    assert Lookup(OwnParameters(m), DescriptionKey) == Entry(m, DescriptionKey);
    if m.description.Some? {
      TrimCut(m.description.value);
    }
  }

  /** `privacy.view` is written exactly when `Privacy` is set, and holds its identifier lower-cased. */
  lemma PrivacyViewEntry<S>(m: VideoUpdateMetadata<S>)
    ensures PrivacyViewKey in OwnParameters(m) <==> m.privacy.Some?
    ensures m.privacy.Some? ==> OwnParameters(m)[PrivacyViewKey].Some?
    ensures m.privacy.Some? ==> LowerCasedFrom(OwnParameters(m)[PrivacyViewKey].value, m.privacy.value.identifier)
  {
    OwnParametersFollowTable(m);
    assert Lookup(OwnParameters(m), PrivacyViewKey) == Entry(m, PrivacyViewKey);
    if m.privacy.Some? {
      ToLowerIsLowerCase(m.privacy.value.identifier);
    }
  }

  /** `privacy.embed` is written exactly when `EmbedPrivacy` is set, and holds its identifier lower-cased. */
  lemma PrivacyEmbedEntry<S>(m: VideoUpdateMetadata<S>)
    ensures PrivacyEmbedKey in OwnParameters(m) <==> m.embedPrivacy.Some?
    ensures m.embedPrivacy.Some? ==> OwnParameters(m)[PrivacyEmbedKey].Some?
    ensures m.embedPrivacy.Some? ==>
      LowerCasedFrom(OwnParameters(m)[PrivacyEmbedKey].value, m.embedPrivacy.value.identifier)
  {
    OwnParametersFollowTable(m);
    assert Lookup(OwnParameters(m), PrivacyEmbedKey) == Entry(m, PrivacyEmbedKey);
    if m.embedPrivacy.Some? {
      ToLowerIsLowerCase(m.embedPrivacy.value.identifier);
    }
  }

  /** `privacy.comments` is written exactly when `Comments` is set, and holds its identifier lower-cased. */
  lemma PrivacyCommentsEntry<S>(m: VideoUpdateMetadata<S>)
    ensures PrivacyCommentsKey in OwnParameters(m) <==> m.comments.Some?
    ensures m.comments.Some? ==> OwnParameters(m)[PrivacyCommentsKey].Some?
    ensures m.comments.Some? ==>
      LowerCasedFrom(OwnParameters(m)[PrivacyCommentsKey].value, m.comments.value.identifier)
  {
    OwnParametersFollowTable(m);
    assert Lookup(OwnParameters(m), PrivacyCommentsKey) == Entry(m, PrivacyCommentsKey);
    if m.comments.Some? {
      ToLowerIsLowerCase(m.comments.value.identifier);
    }
  }

  /**
   * `password` is written exactly when `Privacy` is `Password`, whether or not
   * `Password` is set, and holds `Password` untouched (a `null` stays `null`).
   */
  lemma PasswordEntry<S>(m: VideoUpdateMetadata<S>)
    ensures PasswordKey in OwnParameters(m) <==> m.privacy == Some(VideoPrivacyEnum.Password)
    ensures PasswordKey in OwnParameters(m) ==> OwnParameters(m)[PasswordKey] == m.password
  {
    OwnParametersFollowTable(m);
    assert Lookup(OwnParameters(m), PasswordKey) == Entry(m, PasswordKey);
  }

  /** Each tri-state boolean writes `"true"`, `"false"` or nothing, as it is `true`, `false` or unset. */
  lemma BooleanEntries<S>(m: VideoUpdateMetadata<S>)
    ensures BooleanEntry(OwnParameters(m), ReviewPageKey, m.reviewLinkEnabled)
    ensures BooleanEntry(OwnParameters(m), PrivacyDownloadKey, m.allowDownloadVideo)
    ensures BooleanEntry(OwnParameters(m), PrivacyAddKey, m.allowAddToAlbumChannelGroup)
  {
    OwnParametersFollowTable(m);
    assert Lookup(OwnParameters(m), ReviewPageKey) == Entry(m, ReviewPageKey);
    assert Lookup(OwnParameters(m), PrivacyDownloadKey) == Entry(m, PrivacyDownloadKey);
    assert Lookup(OwnParameters(m), PrivacyAddKey) == Entry(m, PrivacyAddKey);
  }

  /** The field behind `key` is set; for `password` that field is `Privacy`, and it must be `Password`. */
  predicate FieldIsSet<S>(m: VideoUpdateMetadata<S>, key: string) {
    if key == NameKey then m.name.Some?
    else if key == DescriptionKey then m.description.Some?
    else if key == PrivacyViewKey then m.privacy.Some?
    else if key == PasswordKey then m.privacy == Some(VideoPrivacyEnum.Password)
    else if key == PrivacyEmbedKey then m.embedPrivacy.Some?
    else if key == PrivacyCommentsKey then m.comments.Some?
    else if key == ReviewPageKey then m.reviewLinkEnabled.Some?
    else if key == PrivacyDownloadKey then m.allowDownloadVideo.Some?
    else if key == PrivacyAddKey then m.allowAddToAlbumChannelGroup.Some?
    else false
  }

  /** The fixed keys whose field is set. */
  function SetFieldKeys<S>(m: VideoUpdateMetadata<S>): set<string> {
    set key | key in FixedKeys && FieldIsSet(m, key)
  }

  /** True when none of the fields that lead to a key is set. */
  predicate NothingToWrite<S>(m: VideoUpdateMetadata<S>) {
    && m.name.None?
    && m.description.None?
    && m.privacy.None?
    && m.embedPrivacy.None?
    && m.comments.None?
    && m.reviewLinkEnabled.None?
    && m.allowDownloadVideo.None?
    && m.allowAddToAlbumChannelGroup.None?
  }

  /** A key belongs to a set field exactly when the table has a row for it. */
  lemma SetFieldKeysAreTableKeys<S>(m: VideoUpdateMetadata<S>, key: string)
    ensures key in SetFieldKeys(m) <==> Entry(m, key).Some?
  {
    KeyRankFindsKey(key);
  }

  /** The record writes exactly the keys of its set fields. */
  lemma OwnKeysAreSetFieldKeys<S>(m: VideoUpdateMetadata<S>)
    ensures OwnParameters(m).Keys == SetFieldKeys(m)
  {
    OwnParametersFollowTable(m);
    forall key
      ensures key in OwnParameters(m) <==> key in SetFieldKeys(m)
    {
      assert Lookup(OwnParameters(m), key) == Entry(m, key);
      SetFieldKeysAreTableKeys(m, key);
    }
  }

  /** Every key the record writes is one of the nine fixed keys. */
  lemma OwnKeysAreFixedKeys<S>(m: VideoUpdateMetadata<S>)
    ensures forall key :: key in OwnParameters(m) ==> key in FixedKeys
  {
    OwnParametersFollowTable(m);
    forall key | key in OwnParameters(m)
      ensures key in FixedKeys
    {
      KeyRankFindsKey(key);
      assert Lookup(OwnParameters(m), key) == Entry(m, key);
    }
  }

  /** The record writes nothing exactly when none of the fields that lead to a key is set. */
  lemma NothingWritten<S>(m: VideoUpdateMetadata<S>)
    ensures OwnParameters(m) == map[] <==> NothingToWrite(m)
  {
    OwnKeysAreSetFieldKeys(m);
    if m.name.Some? {
      assert NameKey in SetFieldKeys(m);
    } else if m.description.Some? {
      assert DescriptionKey in SetFieldKeys(m);
    } else if m.privacy.Some? {
      assert PrivacyViewKey in SetFieldKeys(m);
    } else if m.embedPrivacy.Some? {
      assert PrivacyEmbedKey in SetFieldKeys(m);
    } else if m.comments.Some? {
      assert PrivacyCommentsKey in SetFieldKeys(m);
    } else if m.reviewLinkEnabled.Some? {
      assert ReviewPageKey in SetFieldKeys(m);
    } else if m.allowDownloadVideo.Some? {
      assert PrivacyDownloadKey in SetFieldKeys(m);
    } else if m.allowAddToAlbumChannelGroup.Some? {
      assert PrivacyAddKey in SetFieldKeys(m);
    } else {
      assert forall key :: key in SetFieldKeys(m) ==> !FieldIsSet(m, key);
    }
  }

  /** The fields of a record that the entry under `key` is computed from agree between `m` and `m'`. */
  predicate FieldsAgreeFor<S, T>(key: string, m: VideoUpdateMetadata<S>, m': VideoUpdateMetadata<T>) {
    if key == NameKey then m.name == m'.name
    else if key == DescriptionKey then m.description == m'.description
    else if key == PrivacyViewKey then m.privacy == m'.privacy
    else if key == PasswordKey then m.privacy == m'.privacy && m.password == m'.password
    else if key == PrivacyEmbedKey then m.embedPrivacy == m'.embedPrivacy
    else if key == PrivacyCommentsKey then m.comments == m'.comments
    else if key == ReviewPageKey then m.reviewLinkEnabled == m'.reviewLinkEnabled
    else if key == PrivacyDownloadKey then m.allowDownloadVideo == m'.allowDownloadVideo
    else if key == PrivacyAddKey then m.allowAddToAlbumChannelGroup == m'.allowAddToAlbumChannelGroup
    else true
  }

  /** Each entry comes from its own fields alone: two records that agree on them agree on the entry. */
  lemma EntryDependsOnlyOnItsFields<S, T>(key: string, m: VideoUpdateMetadata<S>, m': VideoUpdateMetadata<T>)
    requires FieldsAgreeFor(key, m, m')
    ensures Lookup(OwnParameters(m), key) == Lookup(OwnParameters(m'), key)
  {
    OwnParametersFollowTable(m);
    OwnParametersFollowTable(m');
    assert Lookup(OwnParameters(m), key) == Entry(m, key);
    assert Lookup(OwnParameters(m'), key) == Entry(m', key);
  }
}
