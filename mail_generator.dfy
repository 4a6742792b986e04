/** The class/semester mail generator (components/MailGeneratorView.tsx): decoding the class list,
    the generate action with its selection guard, and assembling one parent mail. */
module MailGenerator {
  import opened Common
  import opened Json

  /** One entry of the class selector. */
  datatype ClassOption = ClassOption(id: string, name: string)

  /** Where an object item's id and name are looked up, in order. */
  const IdKeys: seq<string> := ["id", "value", "klasse"]
  const NameKeys: seq<string> := ["name", "label", "klasse"]

  /** The value of the first of `keys` whose field holds a string, even an empty one;
      the empty string when none does. */
  function FirstStringField(fields: map<string, Json>, keys: seq<string>): (r: string)
    ensures forall i :: (0 <= i < |keys| && StringField(fields, keys[i]).Some? &&
                         forall j :: 0 <= j < i ==> StringField(fields, keys[j]).None?)
                        ==> r == StringField(fields, keys[i]).value
    ensures (forall i :: 0 <= i < |keys| ==> StringField(fields, keys[i]).None?) ==> r == ""
    ensures r != "" ==> exists i :: 0 <= i < |keys| && StringField(fields, keys[i]) == Some(r)
  {
    if keys == [] then ""
    else match StringField(fields, keys[0])
      case Some(s) => s
      case None =>
        var r := FirstStringField(fields, keys[1..]);
        assert r != "" ==> exists i :: 1 <= i < |keys| && StringField(fields, keys[i]) == Some(r) by {
          if r != "" {
            var i :| 0 <= i < |keys[1..]| && StringField(fields, keys[1..][i]) == Some(r);
            assert keys[1..][i] == keys[i + 1];
          }
        }
        r
  }

  /** One item of the class list: a bare string names itself; an object gives its id and name
      by the fallback orders and is dropped unless both are non-empty; anything else is dropped. */
  function NormalizeClass(item: Json): (r: Option<ClassOption>)
    ensures item.JString? ==> r == Some(ClassOption(item.s, item.s))
    ensures item.JObject? ==>
              (r.Some? <==> FirstStringField(item.fields, IdKeys) != "" && FirstStringField(item.fields, NameKeys) != "")
    ensures item.JObject? && r.Some? ==>
      r.value == ClassOption(FirstStringField(item.fields, IdKeys), FirstStringField(item.fields, NameKeys))
    ensures !item.JString? && !item.JObject? ==> r == None
  {
    match item
    case JString(s) => Some(ClassOption(s, s))
    case JObject(fields) =>
      var id := FirstStringField(fields, IdKeys);
      var name := FirstStringField(fields, NameKeys);
      if id != "" && name != "" then Some(ClassOption(id, name)) else None
    case _ => None  // null, booleans, numbers, and arrays (objects without these fields)
  }

  /** The items that normalise, in input order. */
  function NormalizeItems(items: seq<Json>): (r: seq<ClassOption>)
    ensures |r| <= |items|
    ensures forall c :: c in r ==> exists i :: 0 <= i < |items| && NormalizeClass(items[i]) == Some(c)
  {
    if items == [] then []
    else
      var rest := NormalizeItems(items[1..]);
      assert forall c :: c in rest ==> exists i :: 0 <= i < |items| && NormalizeClass(items[i]) == Some(c) by {
        forall c | c in rest ensures exists i :: 0 <= i < |items| && NormalizeClass(items[i]) == Some(c) {
          var i :| 0 <= i < |items[1..]| && NormalizeClass(items[1..][i]) == Some(c);
          assert items[1..][i] == items[i + 1];
        }
      }
      match NormalizeClass(items[0])
      case Some(c) => [c] + rest
      case None => rest
  }

  /** The class list decoded from the endpoint's JSON: empty for anything but an array. */
  function NormalizeClasses(data: Json): (r: seq<ClassOption>)
    ensures !data.JArray? ==> r == []
    ensures data.JArray? ==> |r| <= |data.items|
    ensures data.JArray? ==> r == NormalizeItems(data.items)
    ensures forall c :: c in r ==> data.JArray? && exists i :: 0 <= i < |data.items| && NormalizeClass(data.items[i]) == Some(c)
  {
    match data
    case JArray(items) => NormalizeItems(items)
    case _ => []
  }

  /** Decoding is item by item: decoding a concatenation concatenates the decodings, so the kept
      entries appear in the order of their items. */
  lemma {:induction false} NormalizeItemsAppend(xs: seq<Json>, ys: seq<Json>)
    ensures NormalizeItems(xs + ys) == NormalizeItems(xs) + NormalizeItems(ys)
  {
    if xs == [] {
      assert xs + ys == ys;
    } else {
      assert (xs + ys)[1..] == xs[1..] + ys;
      NormalizeItemsAppend(xs[1..], ys);
    }
  }

  /** Every entry has a non-empty id and name, except the one a bare empty string item produces. */
  lemma {:induction false} NormalizedEntriesNonEmpty(items: seq<Json>)
    ensures forall c :: c in NormalizeItems(items) ==>
      (c.id != "" && c.name != "") || (c == ClassOption("", "") && JString("") in items)
  {
    forall c | c in NormalizeItems(items)
      ensures (c.id != "" && c.name != "") || (c == ClassOption("", "") && JString("") in items)
    {
      var i :| 0 <= i < |items| && NormalizeClass(items[i]) == Some(c);
      if items[i].JString? && items[i].s == "" {
        assert c == ClassOption("", "");
      }
    }
  }

  /** A single item decodes to its own entry, or to nothing when it is dropped. */
  lemma NormalizeItemsOne(x: Json)
    ensures NormalizeItems([x]) == (if NormalizeClass(x).Some? then [NormalizeClass(x).value] else [])
  {
    assert [x][1..] == [];
  }

  /** Every item that decodes reaches the list, right after the entries of the items before it:
      only items that do not decode are dropped, and the kept ones keep their input order. */
  lemma NormalizeItemsKeepsDecodable(items: seq<Json>, i: nat)
    requires i < |items| && NormalizeClass(items[i]).Some?
    ensures var before := NormalizeItems(items[..i]);
            |before| < |NormalizeItems(items)| && NormalizeItems(items)[|before|] == NormalizeClass(items[i]).value
  {
    assert items == items[..i] + ([items[i]] + items[i + 1..]);
    NormalizeItemsAppend(items[..i], [items[i]] + items[i + 1..]);
    NormalizeItemsAppend([items[i]], items[i + 1..]);
    NormalizeItemsOne(items[i]);
  }

  /** For an array payload, every decodable item reaches the selector in its input position. */
  lemma NormalizeClassesKeepsDecodable(data: Json, i: nat)
    requires data.JArray? && i < |data.items| && NormalizeClass(data.items[i]).Some?
    ensures NormalizeClass(data.items[i]).value in NormalizeClasses(data)
    ensures |NormalizeItems(data.items[..i])| < |NormalizeClasses(data)|
    ensures NormalizeClasses(data)[|NormalizeItems(data.items[..i])|] == NormalizeClass(data.items[i]).value
  {
    NormalizeItemsKeepsDecodable(data.items, i);
  }

  /** `value` and `label` stand in for an `id` and a `name` that are missing or not strings. */
  lemma ValueLabelFallback(fields: map<string, Json>, value: string, labelText: string)
    requires StringField(fields, "id").None? && StringField(fields, "name").None?
    requires StringField(fields, "value") == Some(value) && StringField(fields, "label") == Some(labelText)
    requires value != "" && labelText != ""
    ensures NormalizeClass(JObject(fields)) == Some(ClassOption(value, labelText))
  {
    assert FirstStringField(fields, IdKeys) == value by {
      assert IdKeys[0] == "id" && IdKeys[1] == "value";
    }
    assert FirstStringField(fields, NameKeys) == labelText by {
      assert NameKeys[0] == "name" && NameKeys[1] == "label";
    }
  }

  /** `klasse` alone gives both the id and the name. */
  lemma KlasseFallback(fields: map<string, Json>, klasse: string)
    requires StringField(fields, "id").None? && StringField(fields, "value").None?
    requires StringField(fields, "name").None? && StringField(fields, "label").None?
    requires StringField(fields, "klasse") == Some(klasse) && klasse != ""
    ensures NormalizeClass(JObject(fields)) == Some(ClassOption(klasse, klasse))
  {
    assert FirstStringField(fields, IdKeys) == klasse by {
      assert IdKeys[0] == "id" && IdKeys[1] == "value" && IdKeys[2] == "klasse";
    }
    assert FirstStringField(fields, NameKeys) == klasse by {
      assert NameKeys[0] == "name" && NameKeys[1] == "label" && NameKeys[2] == "klasse";
    }
  }

  /** An `id` that is present but not a string is passed over in favour of a string `value`. */
  lemma NonStringIdSkipped(fields: map<string, Json>, value: string)
    requires "id" in fields && !fields["id"].JString?
    requires StringField(fields, "value") == Some(value)
    ensures FirstStringField(fields, IdKeys) == value
  {
    assert IdKeys[0] == "id" && IdKeys[1] == "value";
  }

  /** A string-typed field wins even when empty: an object whose `id` is the empty string is
      dropped, whatever `value` and `klasse` hold. */
  lemma EmptyIdHidesValue(fields: map<string, Json>)
    requires "id" in fields && fields["id"] == JString("")
    ensures NormalizeClass(JObject(fields)) == None
  {
    assert StringField(fields, IdKeys[0]) == Some("");
  }

  /** One noten entry as a line: strings as they are, anything else as its JSON text. */
  function EntryLine(entry: Json, stringify: Json -> string): (line: string)
    ensures entry.JString? ==> line == entry.s
    ensures !entry.JString? ==> line == stringify(entry)
  {
    if entry.JString? then entry.s else stringify(entry)
  }

  function EntryLines(entries: seq<Json>, stringify: Json -> string): (lines: seq<string>)
    ensures |lines| == |entries|
    ensures forall i :: 0 <= i < |entries| ==> lines[i] == EntryLine(entries[i], stringify)
  {
    if entries == [] then [] else [EntryLine(entries[0], stringify)] + EntryLines(entries[1..], stringify)
  }

  /** A student's `noten` as lines: an array entry by entry, a single string as one line, and
      nothing for anything else (including a missing field). */
  function NormalizeNoten(noten: Option<Json>, stringify: Json -> string): (lines: seq<string>)
    ensures noten.Some? && noten.value.JArray? ==>
      |lines| == |noten.value.items| &&
      forall i :: 0 <= i < |lines| ==> lines[i] == EntryLine(noten.value.items[i], stringify)
    ensures noten.Some? && noten.value.JString? ==> lines == [noten.value.s]
    ensures noten.None? || !(noten.value.JArray? || noten.value.JString?) ==> lines == []
  {
    match noten
    case Some(JArray(entries)) => EntryLines(entries, stringify)
    case Some(JString(s)) => [s]
    case _ => []
  }

  /** An array whose entries are all strings yields exactly those strings. */
  lemma NormalizeNotenKeepsStrings(entries: seq<string>, stringify: Json -> string)
    ensures NormalizeNoten(Some(JArray(seq(|entries|, i requires 0 <= i < |entries| => JString(entries[i])))), stringify)
            == entries
  {
  }

  /** One mail body line, `JSON.parse(line).fach + ' : ' + JSON.parse(line).note`; None when the
      parse throws (`parse` gives None) or yields null (the property access throws). */
  function MailLine(line: string, parse: string -> Option<Json>): (r: Option<string>)
    ensures r.None? <==> parse(line).None? || parse(line).value.JNull?
    ensures parse(line).Some? && parse(line).value.JObject? ==>
      r == Some(OptText(Field(parse(line).value.fields, "fach")) + " : " + OptText(Field(parse(line).value.fields, "note")))
    ensures parse(line).Some? && !parse(line).value.JObject? && !parse(line).value.JNull? ==>
      r == Some("undefined" + " : " + "undefined")
  {
    match parse(line)
    case None => None
    case Some(v) =>
      match (PropertyText(v, "fach"), PropertyText(v, "note"))
      case (Some(fach), Some(note)) => Some(fach + " : " + note)
      case _ => None
  }

  /** All body lines, or None when any of them throws. */
  function MailLines(lines: seq<string>, parse: string -> Option<Json>): (r: Option<seq<string>>)
    ensures r.Some? <==> forall i :: 0 <= i < |lines| ==> MailLine(lines[i], parse).Some?
    ensures r.Some? ==> |r.value| == |lines|
    ensures r.Some? ==> forall i :: 0 <= i < |lines| ==> Some(r.value[i]) == MailLine(lines[i], parse)
  {
    if lines == [] then Some([])
    else
      assert forall i :: 1 <= i < |lines| ==> lines[1..][i - 1] == lines[i];
      match MailLine(lines[0], parse)
      case None => None
      case Some(first) =>
        match MailLines(lines[1..], parse)
        case None => None
        case Some(rest) => Some([first] + rest)
  }

  /** What the mail client is opened with (the `mailto:` encoding is left to the browser). */
  datatype MailDraft = MailDraft(to: string, subject: string, body: string)

  /** The properties JavaScript finds on a generated item: an object's fields, none on any other
      value. (A null item never gets a card: rendering its card already throws.) */
  function Properties(item: Json): map<string, Json>
  {
    if item.JObject? then item.fields else map[]
  }

  /** The subject line: the semester and the item's raw `vorname` and `nachname`. */
  function MailSubject(semester: string, item: Json): (subject: string)
    ensures "Noten Semester " + semester + ": " <= subject
    ensures !item.JObject? ==> subject == "Noten Semester " + semester + ": undefined undefined"
  {
    "Noten Semester" + " " + semester + ": " + OptText(Field(Properties(item), "vorname"))
      + " " + OptText(Field(Properties(item), "nachname"))
  }

  /** The recipient: the item's `email` when it is a string, else empty. */
  function MailRecipient(item: Json): (to: string)
    ensures to != "" ==> item.JObject? && Field(item.fields, "email") == Some(JString(to))
    ensures item.JObject? && StringField(item.fields, "email").Some? ==> to == StringField(item.fields, "email").value
    ensures item.JObject? && StringField(item.fields, "email").None? ==> to == ""
  {
    match StringField(Properties(item), "email")
    case Some(e) => e
    case None => ""
  }

  /** The body lines before the overwrite: the item's `noten` normalised. */
  function NotenOf(item: Json, stringify: Json -> string): (lines: seq<string>)
    ensures !item.JObject? ==> lines == []
    ensures item.JObject? ==> lines == NormalizeNoten(Field(item.fields, "noten"), stringify)
  {
    NormalizeNoten(Field(Properties(item), "noten"), stringify)
  }

  /** The mail for one generated item, or None when building its body throws. */
  function ComposeMail(semester: string, item: Json, stringify: Json -> string,
                       parse: string -> Option<Json>): (r: Option<MailDraft>)
    ensures r.Some? <==> forall k :: 0 <= k < |NotenOf(item, stringify)| ==> MailLine(NotenOf(item, stringify)[k], parse).Some?
    ensures r.Some? ==> r.value.to == MailRecipient(item) && r.value.subject == MailSubject(semester, item)
  {
    match MailLines(NotenOf(item, stringify), parse)
    case Some(lines) => Some(MailDraft(MailRecipient(item), MailSubject(semester, item), Join(lines, "\n")))
    case None => None
  }

  /** The `forEach` of the mail action: each line of the array is overwritten in place with its
      `fach : note` text. It stops at the first line that throws and reports the failure. */
  method ConvertLines(lines: array<string>, parse: string -> Option<Json>) returns (ok: bool)
    modifies lines
    ensures ok <==> forall k :: 0 <= k < lines.Length ==> MailLine(old(lines[k]), parse).Some?
    ensures ok ==> forall k :: 0 <= k < lines.Length ==> MailLine(old(lines[k]), parse) == Some(lines[k])
  {
    var i := 0;
    while i < lines.Length
      invariant 0 <= i <= lines.Length
      invariant forall k :: 0 <= k < i ==> MailLine(old(lines[k]), parse) == Some(lines[k])
      invariant forall k :: i <= k < lines.Length ==> lines[k] == old(lines[k])
    {
      var line := MailLine(lines[i], parse);
      if line.None? {
        return false;
      }
      lines[i] := line.value;
      i := i + 1;
    }
    return true;
  }

  /** The mail action of a card: subject and recipient from the item, the normalised noten lines
      converted in place and joined with newlines. */
  method OpenMail(semester: string, item: Json, stringify: Json -> string, parse: string -> Option<Json>)
    returns (mail: Option<MailDraft>)
    requires !item.JNull?
    ensures mail == ComposeMail(semester, item, stringify, parse)
  {
    var subject := MailSubject(semester, item);
    var to := MailRecipient(item);
    var noten := NotenOf(item, stringify);
    var lines := new string[|noten|](k requires 0 <= k < |noten| => noten[k]);
    assert lines[..] == noten;
    var ok := ConvertLines(lines, parse);
    if !ok {
      var i :| 0 <= i < |noten| && MailLine(noten[i], parse).None?;
      ComposeFails(semester, item, stringify, parse, i);
      return None;
    }
    ComposeSucceeds(semester, item, stringify, parse, lines[..]);
    mail := Some(MailDraft(to, subject, Join(lines[..], "\n")));
  }

  /** One line that does not convert makes the whole mail fail. */
  lemma ComposeFails(semester: string, item: Json, stringify: Json -> string, parse: string -> Option<Json>, i: nat)
    requires i < |NotenOf(item, stringify)| && MailLine(NotenOf(item, stringify)[i], parse).None?
    ensures ComposeMail(semester, item, stringify, parse) == None
  {
    assert MailLines(NotenOf(item, stringify), parse).None?;
  }

  /** Lines that all convert give the mail with their joined text as its body. */
  lemma ComposeSucceeds(semester: string, item: Json, stringify: Json -> string, parse: string -> Option<Json>,
                        out: seq<string>)
    requires |out| == |NotenOf(item, stringify)|
    requires forall k :: 0 <= k < |out| ==> MailLine(NotenOf(item, stringify)[k], parse) == Some(out[k])
    ensures ComposeMail(semester, item, stringify, parse)
            == Some(MailDraft(MailRecipient(item), MailSubject(semester, item), Join(out, "\n")))
  {
    MailLinesMatch(NotenOf(item, stringify), parse, out);
  }

  /** Lines that each convert to the given text make the whole conversion that text. */
  lemma MailLinesMatch(noten: seq<string>, parse: string -> Option<Json>, out: seq<string>)
    requires |out| == |noten|
    requires forall k :: 0 <= k < |noten| ==> MailLine(noten[k], parse) == Some(out[k])
    ensures MailLines(noten, parse) == Some(out)
  {
    var r := MailLines(noten, parse);
    assert r.Some?;
    forall k | 0 <= k < |noten| ensures r.value[k] == out[k] {
      assert Some(r.value[k]) == MailLine(noten[k], parse);
    }
    assert r.value == out;
  }

  /** The subject names the semester and the student, and the recipient falls back to empty. */
  lemma MailHeader(semester: string, item: Json, stringify: Json -> string, parse: string -> Option<Json>,
                   vorname: string, nachname: string)
    requires item.JObject? && Field(item.fields, "vorname") == Some(JString(vorname))
    requires Field(item.fields, "nachname") == Some(JString(nachname))
    requires ComposeMail(semester, item, stringify, parse).Some?
    ensures ComposeMail(semester, item, stringify, parse).value.subject
            == "Noten Semester " + semester + ": " + vorname + " " + nachname
    ensures ComposeMail(semester, item, stringify, parse).value.to
            == (if "email" in item.fields && item.fields["email"].JString? then item.fields["email"].s else "")
  {
  }

  /** A missing `vorname` is not replaced by empty text in the subject: it reads `undefined`. */
  lemma SubjectWithoutVorname(semester: string, item: Json)
    requires item.JObject? && "vorname" !in item.fields
    ensures MailSubject(semester, item)
            == "Noten Semester " + semester + ": undefined " + OptText(Field(item.fields, "nachname"))
  {
  }

  /** The body has one line per noten entry, in order, as long as no line itself holds a newline. */
  lemma {:induction false} MailBodyLines(semester: string, item: Json, stringify: Json -> string,
                                         parse: string -> Option<Json>)
    requires ComposeMail(semester, item, stringify, parse).Some?
    requires NotenOf(item, stringify) != []
    requires forall k :: 0 <= k < |NotenOf(item, stringify)| ==> '\n' !in MailLine(NotenOf(item, stringify)[k], parse).value
    ensures var body := ComposeMail(semester, item, stringify, parse).value.body;
            var noten := NotenOf(item, stringify);
            |Split(body, '\n')| == |noten| &&
            forall k :: 0 <= k < |noten| ==> Some(Split(body, '\n')[k]) == MailLine(noten[k], parse)
  {
    var noten := NotenOf(item, stringify);
    var lines := MailLines(noten, parse).value;
    forall k | 0 <= k < |lines| ensures '\n' !in lines[k] {
      assert Some(lines[k]) == MailLine(noten[k], parse);
    }
    SplitJoin(lines, '\n');
  }

  /** An item without `noten` gets an empty body. */
  lemma NoNotenEmptyBody(semester: string, item: Json, stringify: Json -> string, parse: string -> Option<Json>)
    requires item.JObject? && "noten" !in item.fields
    ensures ComposeMail(semester, item, stringify, parse) == Some(MailDraft(MailRecipient(item), MailSubject(semester, item), ""))
  {
  }

  /** A structured entry `{fach, note}` whose JSON text parses back to itself becomes the line
      `fach : note`. */
  lemma StructuredEntryLine(fach: string, note: Json, stringify: Json -> string, parse: string -> Option<Json>)
    requires var e := JObject(map["fach" := JString(fach), "note" := note]); parse(stringify(e)) == Some(e)
    ensures MailLine(EntryLine(JObject(map["fach" := JString(fach), "note" := note]), stringify), parse)
            == Some(fach + " : " + Text(note))
  {
    var m := map["fach" := JString(fach), "note" := note];
    assert Field(m, "fach") == Some(JString(fach));
    assert Field(m, "note") == Some(note);
  }

  /** What a fetch settles to: a failure (network error, non-success status, unreadable body)
      or the decoded JSON. */
  datatype Response = Failed | Received(data: Json)

  /** The body of the mail-generation request. */
  datatype MailRequest = MailRequest(selectedClassId: string, selectedSemester: string)

  const ClassesLoadError: string := "Klassen konnten nicht geladen werden."

  /** The view's state. */
  class MailGeneratorState {
    var classes: seq<ClassOption>
    var classesError: string
    var selectedClassId: string
    var selectedSemester: string
    var generatedMail: string
    var generatedMails: seq<Json>

    constructor ()
      ensures classes == [] && classesError == "" && selectedClassId == "" && selectedSemester == ""
      ensures generatedMail == "" && generatedMails == []
    {
      classes, classesError := [], "";
      selectedClassId, selectedSemester := "", "";
      generatedMail, generatedMails := "", [];
    }

    /** The class list once its fetch settles: the decoded list, or empty with the error text. */
    method LoadClasses(response: Response)
      modifies this`classes, this`classesError
      ensures response.Received? ==> classes == NormalizeClasses(response.data) && classesError == ""
      ensures response.Failed? ==> classes == [] && classesError == ClassesLoadError
    {
      classesError := "";
      match response
      case Received(data) =>
        classes := NormalizeClasses(data);
      case Failed =>
        classes := [];
        classesError := ClassesLoadError;
    }

    /** Generate: with no class or no semester selected no request is sent and nothing changes.
        Otherwise the request carries both selections; `response` is how it settles. An array
        becomes the list of generated mails, any other success clears it, and a failure clears
        both the list and the single generated mail. */
    method Generate(response: Response) returns (request: Option<MailRequest>)
      modifies this`generatedMail, this`generatedMails
      ensures old(selectedClassId) == "" || old(selectedSemester) == "" ==>
        request == None && generatedMails == old(generatedMails) && generatedMail == old(generatedMail)
      ensures old(selectedClassId) != "" && old(selectedSemester) != "" ==>
        request == Some(MailRequest(selectedClassId, selectedSemester))
      ensures request.Some? && response.Received? ==>
        generatedMail == old(generatedMail) &&
        generatedMails == (if response.data.JArray? then response.data.items else [])
      ensures request.Some? && response.Failed? ==> generatedMail == "" && generatedMails == []
    {
      if selectedClassId == "" || selectedSemester == "" {
        return None;
      }
      request := Some(MailRequest(selectedClassId, selectedSemester));
      generatedMails := [];
      match response
      case Received(data) =>
        generatedMails := if data.JArray? then data.items else [];
      case Failed =>
        generatedMail := "";
        generatedMails := [];
    }
  }
}
