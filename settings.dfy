/** The profile settings page: the avatar initials, the profile form, its change handler, the
    merge of the loaded profile into it and the payload it saves. */
module Settings {
  import opened Text
  import opened JsValues
  import AuthRoutes

  const NotificationsPrefix: string := "notifications."
  /** The form fields the profile load overrides. */
  const LoadedKeys: set<string> := {"name", "email", "mobile", "place", "timezone", "notifications", "photo"}
  /** The form fields the save sends. */
  const SavedKeys: set<string> := {"name", "mobile", "place", "timezone", "notifications"}

  // ---------------------------------------------------------------------------
  // initials

  /** `parts[i]?.[0] || ''` */
  function FirstChar(parts: seq<string>, i: nat): (r: string)
    ensures |r| <= 1
    ensures |r| == 1 <==> i < |parts| && |parts[i]| > 0
    ensures |r| == 1 ==> r[0] == parts[i][0]
  {
    if i < |parts| && |parts[i]| > 0 then [parts[i][0]] else ""
  }

  /** The first letters of the first two words. */
  function FirstLetters(ws: seq<string>): (r: string)
    ensures (forall i :: 0 <= i < |ws| ==> |ws[i]| > 0) ==> |r| == (if |ws| < 2 then |ws| else 2)
  {
    FirstChar(ws, 0) + FirstChar(ws, 1)
  }

  /** `getInitials(name)` */
  function GetInitials(name: string): (r: string)
    ensures |r| <= 2
  {
    if name == "" then "" else ToUpper(FirstLetters(SplitOnSpaces(Trim(name))))
  }

  /** The initials are the upper-cased first letters of the first two words of the name. */
  lemma {:induction false} InitialsOfWords(name: string)
    ensures GetInitials(name) == ToUpper(FirstLetters(Words(name)))
  {
    WordsTrim(name);
    var t := Trim(name);
    if name == "" {
      assert Words(name) == [];
    } else if |t| == 0 {
      assert SplitOnSpaces(t) == [""] && Words(t) == [];
    } else {
      SplitOnSpacesIsWords(t);
    }
  }

  /** An empty or blank name has no initials. */
  lemma {:induction false} InitialsBlank(name: string)
    requires forall i :: 0 <= i < |name| ==> IsSpace(name[i])
    ensures GetInitials(name) == ""
  {
    InitialsOfWords(name);
    assert TrimStart(name) == "";
  }

  /** A name of one or more words has one or two initials. */
  lemma {:induction false} InitialsCount(name: string)
    ensures |GetInitials(name)| == (if |Words(name)| < 2 then |Words(name)| else 2)
  {
    InitialsOfWords(name);
    WordsAreWords(name);
  }

  // ---------------------------------------------------------------------------
  // the form

  /** The initial form state, from the signed-in user and the browser's time zone. */
  function InitialForm(user: Value, timezone: string): (form: map<string, Value>)
    ensures form.Keys == LoadedKeys
    ensures form["name"] == (if Truthy(Get(user, "name")) then Get(user, "name") else Str(""))
    ensures form["email"] == (if Truthy(Get(user, "email")) then Get(user, "email") else Str(""))
    ensures form["photo"] == (if Truthy(Get(user, "photo")) then Get(user, "photo") else Str(""))
    ensures form["mobile"] == Str("") && form["place"] == Str("") && form["timezone"] == Str(timezone)
    ensures form["notifications"] == Obj(map["remindersEnabled" := Bool(true), "reminderLeadMinutes" := Num(10)])
  {
    map["name" := Or(Get(user, "name"), Str("")),
        "email" := Or(Get(user, "email"), Str("")),
        "mobile" := Str(""),
        "place" := Str(""),
        "timezone" := Str(timezone),
        "notifications" := Obj(map["remindersEnabled" := Bool(true), "reminderLeadMinutes" := Num(10)]),
        "photo" := Or(Get(user, "photo"), Str(""))]
  }

  /** An input's change: its `name`, `value`, whether it is a checkbox, and `checked`. */
  datatype ChangeEvent = ChangeEvent(name: string, value: string, checkbox: bool, checked: bool)

  /** `name.split('.')[1]` for a name starting with "notifications.": the text after that
      prefix up to the next dot. */
  function NotificationKey(name: string): (key: string)
    requires StartsWith(name, NotificationsPrefix)
    ensures key == Split(name[|NotificationsPrefix|..], '.')[0]
    ensures '.' !in key
    ensures '.' !in name[|NotificationsPrefix|..] ==> key == name[|NotificationsPrefix|..]
  {
    var rest := name[|NotificationsPrefix|..];
    assert name == "notifications" + ['.'] + rest;
    SplitPiece("notifications", '.', rest);
    var key := Split(name, '.')[1];
    if '.' in rest then key else SplitWhole(rest, '.'); key
  }

  /** The value a notification input stores: `checked` for a checkbox, else `Number(value)`. */
  function NotificationValue(e: ChangeEvent): (v: Value)
    ensures e.checkbox ==> v == Bool(e.checked)
    ensures !e.checkbox && AllDigits(e.value) ==> v == Num(DigitsValue(e.value))
    ensures !e.checkbox && !AllDigits(e.value) ==> v == NaN
  {
    if e.checkbox then Bool(e.checked) else NumberValue(e.value)
  }

  /** The form after `onChange(e)`. */
  function Changed(form: map<string, Value>, e: ChangeEvent): (r: map<string, Value>)
    ensures StartsWith(e.name, NotificationsPrefix) ==>
      var key := NotificationKey(e.name);
      var before := Spread(Get(Obj(form), "notifications"));
      && r.Keys == form.Keys + {"notifications"}
      && (forall k :: k in form && k != "notifications" ==> r[k] == form[k])
      && r["notifications"].Obj?
      && r["notifications"].fields.Keys == before.Keys + {key}
      && r["notifications"].fields[key] == NotificationValue(e)
      && (forall k :: k in before && k != key ==> r["notifications"].fields[k] == before[k])
    ensures !StartsWith(e.name, NotificationsPrefix) ==>
      && r.Keys == form.Keys + {e.name}
      && r[e.name] == Str(e.value)
      && (forall k :: k in form && k != e.name ==> r[k] == form[k])
  {
    if StartsWith(e.name, NotificationsPrefix) then
      var key := NotificationKey(e.name);
      var notifications := Spread(Get(Obj(form), "notifications"))[key := NotificationValue(e)];
      form["notifications" := Obj(notifications)]
    else form[e.name := Str(e.value)]
  }

  /** `profile.k || fallback` */
  function OrElse(profile: Value, k: string, fallback: Value): (v: Value)
    ensures Truthy(Get(profile, k)) ==> v == Get(profile, k)
    ensures !Truthy(Get(profile, k)) ==> v == fallback
  {
    Or(Get(profile, k), fallback)
  }

  /** The form after the profile arrives: `{ ...prev, name: profile.name || prev.name, ... }`. */
  function Loaded(prev: map<string, Value>, profile: Value): (r: map<string, Value>)
    ensures r.Keys == prev.Keys + LoadedKeys
    ensures forall k :: k in prev && k !in LoadedKeys ==> r[k] == prev[k]
  {
    var p := Obj(prev);
    prev["name" := OrElse(profile, "name", Get(p, "name"))]
        ["email" := OrElse(profile, "email", Get(p, "email"))]
        ["mobile" := OrElse(profile, "mobile", Str(""))]
        ["place" := OrElse(profile, "place", Str(""))]
        ["timezone" := OrElse(profile, "timezone", Get(p, "timezone"))]
        ["notifications" := OrElse(profile, "notifications", Get(p, "notifications"))]
        ["photo" := OrElse(profile, "photo", Str(""))]
  }

  /** Name, e-mail, time zone and notifications take the profile's value when it is truthy and
      fall back to the previous form; mobile, place and photo fall back to the empty string. */
  lemma {:induction false} LoadedFields(prev: map<string, Value>, profile: Value)
    ensures var r := Loaded(prev, profile);
      && r["name"] == (if Truthy(Get(profile, "name")) then Get(profile, "name") else Get(Obj(prev), "name"))
      && r["email"] == (if Truthy(Get(profile, "email")) then Get(profile, "email") else Get(Obj(prev), "email"))
      && r["timezone"] == (if Truthy(Get(profile, "timezone")) then Get(profile, "timezone") else Get(Obj(prev), "timezone"))
      && r["notifications"] == (if Truthy(Get(profile, "notifications")) then Get(profile, "notifications")
                                else Get(Obj(prev), "notifications"))
      && r["mobile"] == (if Truthy(Get(profile, "mobile")) then Get(profile, "mobile") else Str(""))
      && r["place"] == (if Truthy(Get(profile, "place")) then Get(profile, "place") else Str(""))
      && r["photo"] == (if Truthy(Get(profile, "photo")) then Get(profile, "photo") else Str(""))
  {
  }

  /** The body of the profile update: exactly the five editable fields, never the e-mail or
      the photo. */
  function SavePayload(form: map<string, Value>): (payload: map<string, Value>)
    ensures payload.Keys == SavedKeys
    ensures "email" !in payload && "photo" !in payload
    ensures forall k :: k in payload ==> payload[k] == Get(Obj(form), k)
  {
    var f := Obj(form);
    map["name" := Get(f, "name"), "mobile" := Get(f, "mobile"), "place" := Get(f, "place"),
        "timezone" := Get(f, "timezone"), "notifications" := Get(f, "notifications")]
  }

  /** Every field the save sends holds a value (none is `undefined`). */
  predicate FieldsDefined(form: map<string, Value>) {
    forall k :: k in SavedKeys ==> k in form && form[k] != Undef
  }

  /** The saved fields are those the profile route accepts: when none is undefined, the
      server applies the payload as sent. */
  lemma {:induction false} SavePayloadApplied(form: map<string, Value>)
    requires FieldsDefined(form)
    ensures AuthRoutes.Updates(SavePayload(form)) == SavePayload(form)
  {
    var p := SavePayload(form);
    AuthRoutes.UpdatesWhitelist(p);
    forall k ensures k in AuthRoutes.Updates(p) <==> k in p {
      assert k in AuthRoutes.AllowedFields <==> k in SavedKeys;
    }
  }

  lemma {:induction false} InitialFormDefined(user: Value, timezone: string)
    ensures FieldsDefined(InitialForm(user, timezone))
  {
  }

  /** Changes and profile loads keep every saved field defined. */
  lemma {:induction false} ChangedDefined(form: map<string, Value>, e: ChangeEvent)
    requires FieldsDefined(form)
    ensures FieldsDefined(Changed(form, e))
  {
  }

  lemma {:induction false} LoadedDefined(prev: map<string, Value>, profile: Value)
    requires FieldsDefined(prev)
    ensures FieldsDefined(Loaded(prev, profile))
  {
    var r := Loaded(prev, profile);
    forall k | k in SavedKeys ensures k in r && r[k] != Undef {
      assert Truthy(Get(profile, k)) || Get(Obj(prev), k) == prev[k];
    }
  }

  class ProfileForm {
    var form: map<string, Value>

    constructor(user: Value, timezone: string)
      ensures form == InitialForm(user, timezone)
      ensures FieldsDefined(form)
    {
      form := InitialForm(user, timezone);
      InitialFormDefined(user, timezone);
    }

    /** `onChange(e)` */
    method OnChange(e: ChangeEvent)
      modifies this
      ensures form == Changed(old(form), e)
      ensures old(FieldsDefined(form)) ==> FieldsDefined(form)
    {
      if FieldsDefined(form) {
        ChangedDefined(form, e);
      }
      form := Changed(form, e);
    }

    /** The form update when the profile request answers. */
    method LoadProfile(profile: Value)
      modifies this
      ensures form == Loaded(old(form), profile)
      ensures old(FieldsDefined(form)) ==> FieldsDefined(form)
    {
      if FieldsDefined(form) {
        LoadedDefined(form, profile);
      }
      form := Loaded(form, profile);
    }
  }
}
