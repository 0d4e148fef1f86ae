/** The bullet bank of `utils/dynamic_json_ui.py`: a map from category to
the bullets saved under it, in the order they were saved. A bullet field's
category select box and text area are the session-state values passed in;
"Select category" is the select box's placeholder entry.
 */
module BulletBank {
  import opened Wrappers
  import Text
  import Drive

  type Bank = map<string, seq<string>>

  const Placeholder := "Select category"

  /** `bullets_dict.get(category, [])`. */
  function Bullets(bank: Bank, category: string): seq<string>
  {
    if category in bank then bank[category] else []
  }

  /** `category and category != "Select category"`: a chosen, non-empty,
  non-placeholder category. */
  predicate ValidCategory(category: Option<string>) {
    category.Some? && category.value != "" && category.value != Placeholder
  }

  datatype SaveOutcome =
    | Rejected                   // no valid category or a blank text
    | AlreadyPresent             // the category already holds the bullet
    | Appended(uploaded: bool)   // saved; whether the bank upload succeeded

  /** `save_bullet_to_bank`: the bank afterwards, the outcome, and the
  requests sent. The stripped text is appended to the end of its category
  unless already there; only an append uploads the bank, and a failed upload
  is reported without undoing the append. */
  function Save(bank: Bank, category: Option<string>, area: string, path: string, upload: Drive.Reply)
    : (r: (Bank, SaveOutcome, seq<Drive.Call>))
    ensures r.1 == Rejected <==> !ValidCategory(category) || Text.Strip(area) == ""
    ensures r.1 == AlreadyPresent <==> ValidCategory(category) && Text.Strip(area) != ""
                                       && Text.Strip(area) in Bullets(bank, category.value)
    ensures r.1.Appended? <==> ValidCategory(category) && Text.Strip(area) != ""
                               && Text.Strip(area) !in Bullets(bank, category.value)
    ensures !r.1.Appended? ==> r.0 == bank && r.2 == []
    ensures r.1.Appended? ==> r.0 == bank[category.value := Bullets(bank, category.value) + [Text.Strip(area)]]
    ensures r.1.Appended? ==> r.2 == [Drive.Upload(path)] && (r.1.uploaded <==> Drive.OkOrCreated(upload))
  {
    var bullet := Text.Strip(area);
    if !ValidCategory(category) || bullet == "" then (bank, Rejected, [])
    else
      var c := category.value;
      var list := Bullets(bank, c);
      if bullet in list then (bank, AlreadyPresent, [])
      else
        var uploaded := Drive.UploadFile(path, upload).Ok?;
        (bank[c := list + [bullet]], Appended(uploaded), [Drive.Upload(path)])
  }

  /** A save touches only its own category: every other category keeps its
  list. */
  lemma SaveOtherCategories(bank: Bank, category: Option<string>, area: string, path: string, upload: Drive.Reply, other: string)
    requires category.Some? ==> other != category.value
    ensures Bullets(Save(bank, category, area, path, upload).0, other) == Bullets(bank, other)
  {
  }

  /** Saving the same bullet twice is saving it once: the second save finds
  it present, changes nothing and uploads nothing. */
  lemma SaveIdempotent(bank: Bank, category: Option<string>, area: string, path: string, u1: Drive.Reply, u2: Drive.Reply)
    ensures var once := Save(bank, category, area, path, u1).0;
            var twice := Save(once, category, area, path, u2);
            twice.0 == once && twice.2 == [] && !twice.1.Appended?
  {
  }

  /** `bullet_browse_popover`: the bullets listed for a category, or `None`
  when the browse button is disabled because no valid category is chosen. */
  function Browse(bank: Bank, category: Option<string>): (listed: Option<seq<string>>)
    ensures listed.None? <==> !ValidCategory(category)
    ensures listed.Some? ==> listed.value == Bullets(bank, category.value)
  {
    if !ValidCategory(category) then None else Some(Bullets(bank, category.value))
  }

  /** After a bullet is saved, browsing its category lists it last, after
  the bullets that were there before. */
  lemma BrowseAfterSave(bank: Bank, category: Option<string>, area: string, path: string, upload: Drive.Reply)
    requires Save(bank, category, area, path, upload).1.Appended?
    ensures Browse(Save(bank, category, area, path, upload).0, category)
            == Some(Bullets(bank, category.value) + [Text.Strip(area)])
  {
  }

  /** Every saved bullet is non-empty and already stripped. */
  predicate Stripped(bank: Bank) {
    forall c, i :: c in bank && 0 <= i < |bank[c]| ==> bank[c][i] != "" && Text.Strip(bank[c][i]) == bank[c][i]
  }

  /** Saving keeps the bank stripped. */
  lemma {:induction false} SavePreservesStripped(bank: Bank, category: Option<string>, area: string, path: string, upload: Drive.Reply)
    requires Stripped(bank)
    ensures Stripped(Save(bank, category, area, path, upload).0)
  {
    var r := Save(bank, category, area, path, upload);
    if r.1.Appended? {
      Text.StripIdempotent(area);
      var c := category.value;
      forall d, i | d in r.0 && 0 <= i < |r.0[d]|
        ensures r.0[d][i] != "" && Text.Strip(r.0[d][i]) == r.0[d][i]
      {
        if d != c {
          assert r.0[d] == bank[d];
        } else if i < |Bullets(bank, c)| {
          assert r.0[d][i] == bank[c][i];
        } else {
          assert r.0[d][i] == Text.Strip(area);
        }
      }
    }
  }

  /** `st.session_state[f"{key}_area"] = bullet`: the "use" button of the
  `idx`-th listed bullet puts that bullet into the text area. */
  function Pick(listed: seq<string>, idx: nat): (area: string)
    requires idx < |listed|
    ensures area in listed
    ensures area == listed[idx]
  {
    listed[idx]
  }

  /** Picking a listed bullet of a stripped bank and saving it again finds it
  present: the bank is unchanged and nothing is uploaded. */
  lemma {:induction false} PickThenSaveChangesNothing(bank: Bank, category: Option<string>, idx: nat, path: string, upload: Drive.Reply)
    requires Stripped(bank)
    requires Browse(bank, category).Some? && idx < |Browse(bank, category).value|
    ensures var r := Save(bank, category, Pick(Browse(bank, category).value, idx), path, upload);
            r.1 == AlreadyPresent && r.0 == bank && r.2 == []
  {
    var c := category.value;
    var area := Pick(Browse(bank, category).value, idx);
    assert c in bank;
    assert area == bank[c][idx];
    assert Text.Strip(area) == area && area != "";
  }
}
