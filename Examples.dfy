/**
 * Concrete updates and the dictionaries they lead to.  The identifiers
 * `Unlisted` and `Password` stand for the names the privacy enum declares.
 */
module Examples {
  import opened Wrappers
  import opened DotNetString
  import opened Enums
  import opened Models
  import opened Properties

  /** A record with every field unset; the examples set the fields they need on a copy of it. */
  const Unset: VideoUpdateMetadata<int> :=
    VideoUpdateMetadata(None, None, None, None, None, None, None, None, None, None)

  /** A dictionary that agrees with the table on every key is the one the record writes. */
  lemma WritesTable<S>(m: VideoUpdateMetadata<S>, expected: Parameters)
    requires forall key :: Lookup(expected, key) == Entry(m, key)
    ensures OwnParameters(m) == expected
  {
    OwnParametersFollowTable(m);
    var p := OwnParameters(m);
    forall key
      ensures (key in p <==> key in expected) && (key in p ==> p[key] == expected[key])
    {
      assert Lookup(p, key) == Lookup(expected, key);
    }
  }

  /** A name with a blank on either side and the privacy `Unlisted` write the trimmed name and `unlisted`. */
  lemma TrimmedNameAndUnlisted()
    ensures OwnParameters(Unset.(name := Some(" My Video "), privacy := Some(VideoPrivacyEnum("Unlisted"))))
         == map[NameKey := Some("My Video"), PrivacyViewKey := Some("unlisted")]
  {
    var m := Unset.(name := Some(" My Video "), privacy := Some(VideoPrivacyEnum("Unlisted")));
    var s := " My Video ";
    assert s[..1] == " " && s[9..] == " " && s[1..9] == "My Video";
    TrimUnique(s, 1, 9);
    var u := "Unlisted";
    assert ToLower(u) == "unlisted" by {
      assert forall k :: 0 <= k < |u| ==> ToLower(u)[k] == "unlisted"[k];
    }
    var expected: Parameters := map[NameKey := Some("My Video"), PrivacyViewKey := Some("unlisted")];
    forall key
      ensures Lookup(expected, key) == Entry(m, key)
    {
      KeyRankFindsKey(key);
    }
    WritesTable(m, expected);
  }

  /** The privacy `Password` with a password writes `password` under `privacy.view` and the password itself. */
  lemma PasswordPrivacy()
    ensures OwnParameters(Unset.(privacy := Some(VideoPrivacyEnum.Password), password := Some("abc123")))
         == map[PrivacyViewKey := Some("password"), PasswordKey := Some("abc123")]
  {
    var m := Unset.(privacy := Some(VideoPrivacyEnum.Password), password := Some("abc123"));
    var u := "Password";
    assert ToLower(u) == "password" by {
      assert forall k :: 0 <= k < |u| ==> ToLower(u)[k] == "password"[k];
    }
    var expected: Parameters := map[PrivacyViewKey := Some("password"), PasswordKey := Some("abc123")];
    forall key
      ensures Lookup(expected, key) == Entry(m, key)
    {
      KeyRankFindsKey(key);
    }
    WritesTable(m, expected);
  }

  /** The privacy `Password` without a password still writes the key `password`, with a `null` value. */
  lemma PasswordPrivacyWithoutPassword()
    ensures var p := OwnParameters(Unset.(privacy := Some(VideoPrivacyEnum.Password)));
      PasswordKey in p && p[PasswordKey] == None
  {
    PasswordEntry(Unset.(privacy := Some(VideoPrivacyEnum.Password)));
  }

  /** An explicit `false` is written, where an unset boolean is not. */
  lemma FalseIsNotUnset()
    ensures OwnParameters(Unset.(allowDownloadVideo := Some(false))) == map[PrivacyDownloadKey := Some("false")]
    ensures PrivacyDownloadKey !in OwnParameters(Unset)
  {
    var m := Unset.(allowDownloadVideo := Some(false));
    BooleanEntries(Unset);
    var expected: Parameters := map[PrivacyDownloadKey := Some("false")];
    forall key
      ensures Lookup(expected, key) == Entry(m, key)
    {
      KeyRankFindsKey(key);
    }
    WritesTable(m, expected);
  }

  /** A record with every field unset writes nothing. */
  lemma AllUnset()
    ensures OwnParameters(Unset) == map[]
  {
    NothingWritten(Unset);
  }
}
