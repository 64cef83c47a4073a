/**
 * The three enumerations the update record refers to. Their member lists are
 * not part of this model, so each enum value is represented by the string its
 * `ToString()` returns (its declared name for a named member). Only the privacy
 * member `Password` is named, because the serialiser tests for it.
 */
module Enums {

  datatype VideoPrivacyEnum = VideoPrivacyEnum(identifier: string)
  {
    static const Password: VideoPrivacyEnum := VideoPrivacyEnum("Password")
  }

  datatype VideoEmbedPrivacyEnum = VideoEmbedPrivacyEnum(identifier: string)

  datatype VideoCommentsEnum = VideoCommentsEnum(identifier: string)
}
