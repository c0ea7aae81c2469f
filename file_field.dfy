/**
 * The file control (src/components/FieldControls/FileField.tsx): which files it offers to
 * pick, and how choosing or clearing a file updates its file name, its preview and the
 * form value.
 */
module FileField {
  import opened Wrappers
  import opened Js
  import opened Schema
  import opened Controls

  /** A file the user picked: its name and MIME type. */
  datatype ChosenFile = ChosenFile(name: string, mime: string)

  /** The field asks for a picture: its id is selfie, or its label mentions a photo or a selfie. */
  predicate IsImage(f: Field) {
    f.id == "selfie"
    || (f.labelText.Some? &&
        (Contains(ToLowerAscii(f.labelText.value), "photo") || Contains(ToLowerAscii(f.labelText.value), "selfie")))
  }

  /** The `accept` attribute of the input. */
  function Accept(f: Field): (a: string)
    ensures a == "image/*" <==> IsImage(f)
    ensures a == "*/*" <==> !IsImage(f)
  {
    if IsImage(f) then "image/*" else "*/*"
  }

  /** The caption under the icon. */
  function Caption(fileName: string): (c: string)
    ensures c == "File selected" <==> fileName != ""
    ensures c == "Choose file" <==> fileName == ""
  {
    if fileName != "" then "File selected" else "Choose file"
  }

  /** The hint under the caption. */
  function SizeHint(f: Field): (hint: string)
    ensures hint == "PNG, JPG up to 10MB" <==> IsImage(f)
    ensures hint == "Any file up to 10MB" <==> !IsImage(f)
  {
    if IsImage(f) then "PNG, JPG up to 10MB" else "Any file up to 10MB"
  }

  /** The required rule of the controller: present exactly when the field is required, and
      then naming the field by its label, or by its id when it has none. */
  function RequiredRule(f: Field): (m: Option<string>)
    ensures m.Some? <==> IsRequired(f)
    ensures m.Some? ==> m.value == DisplayName(f) + " is required"
  {
    RequiredMessage(f)
  }

  /** The mounted control: its preview (a data URL), the file name it shows, and the value it
      last handed to the form. */
  class FileInput {
    var preview: Option<string>
    var fileName: string
    var value: Value

    constructor ()
      ensures preview == None && fileName == "" && value == Undef
    {
      preview := None;
      fileName := "";
      value := Undef;
    }

    /** handleFileChange: clearing resets all three; choosing a file records its name and hands
        it to the form, and drops the preview unless the file is an image, whose preview the
        file reader sets later. */
    method HandleFileChange(file: Option<ChosenFile>)
      modifies this
      ensures file.None? ==> preview == None && fileName == "" && value == Null
      ensures file.Some? ==> fileName == file.value.name && value == File(file.value.name, file.value.mime)
      ensures file.Some? && !StartsWith(file.value.mime, "image/") ==> preview == None
      ensures file.Some? && StartsWith(file.value.mime, "image/") ==> preview == old(preview)
    {
      if file.None? {
        preview := None;
        fileName := "";
        value := Null;
        return;
      }
      fileName := file.value.name;
      value := File(file.value.name, file.value.mime);
      if !StartsWith(file.value.mime, "image/") {
        preview := None;
      }
    }
  }

  /** The default schema's selfie field asks for a picture. */
  lemma SelfieIsImage()
    ensures IsImage(DefaultFields[4]) && Accept(DefaultFields[4]) == "image/*"
  {
  }

  /** The label is matched without regard to ASCII case: two labels that lower to the same
      text give the same answer. */
  lemma LabelCaseIgnored(f: Field, g: Field)
    requires f.id == g.id && f.labelText.Some? && g.labelText.Some?
    requires ToLowerAscii(f.labelText.value) == ToLowerAscii(g.labelText.value)
    ensures IsImage(f) <==> IsImage(g)
  {
  }

  /** In particular a label and its lower-cased form give the same answer. */
  lemma LoweredLabelSame(f: Field)
    requires f.labelText.Some?
    ensures IsImage(f) <==> IsImage(f.(labelText := Some(ToLowerAscii(f.labelText.value))))
  {
    LowerIdempotent(f.labelText.value);
  }

  /** An upper-case label that names a photo asks for a picture. */
  lemma UpperCasePhotoLabel(f: Field)
    requires f.labelText == Some("PHOTO")
    ensures IsImage(f)
  {
    assert ToLowerAscii("PHOTO") == "photo";
  }
}
