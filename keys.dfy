/** The capture-phase keyboard filter that keeps navigation and orientation hotkeys
    away from the viewer while a form field or the report modal has the user's input. */
module KeyCapture {
  import opened Wrappers
  import opened Text

  /** The lower-cased key names that are held back: movement, arrows, space, Y, Z, R. */
  const BlockedKeys: set<string> := {
    "w", "a", "s", "d",
    "arrowup", "arrowdown", "arrowleft", "arrowright",
    " ",
    "y", "z", "r"
  }

  /** The lower-cased element tags that count as form fields. */
  const FormTags: set<string> := {"input", "textarea", "select"}

  /** Both lists are already in lower case, so every entry can match the lower-cased
      key or tag it is compared with. */
  lemma ListsAreLowerCase()
    ensures forall k :: k in BlockedKeys ==> Lower(k) == k
    ensures forall t :: t in FormTags ==> Lower(t) == t
  {
    LowerAscii("w"); LowerAscii("a"); LowerAscii("s"); LowerAscii("d");
    LowerAscii("arrowup"); LowerAscii("arrowdown"); LowerAscii("arrowleft"); LowerAscii("arrowright");
    LowerAscii(" "); LowerAscii("y"); LowerAscii("z"); LowerAscii("r");
    LowerAscii("input"); LowerAscii("textarea"); LowerAscii("select");
  }

  /** Whether `captureBlocker` suppresses an event (calls `preventDefault` and stops its
      propagation). `targetTag` and `key` are absent when the event has no target tag
      name or no key name. */
  function Suppresses(pinModalOpen: bool, targetTag: Option<string>, key: Option<string>): (blocked: bool)
    ensures blocked <==>
      (pinModalOpen || Lower(targetTag.GetOr("")) in FormTags) && Lower(key.GetOr("")) in BlockedKeys
  {
    var tag := Lower(targetTag.GetOr(""));
    var isFormElement := tag == "input" || tag == "textarea" || tag == "select";
    if pinModalOpen || isFormElement then
      var k := Lower(key.GetOr(""));
      k in BlockedKeys
    else
      false
  }

  /** Suppression depends on the tag and key names only up to letter case. */
  lemma SuppressesIgnoresCase(pinModalOpen: bool, tag: string, key: string)
    ensures Suppresses(pinModalOpen, Some(tag), Some(key))
         == Suppresses(pinModalOpen, Some(Lower(tag)), Some(Lower(key)))
  {
    LowerIdempotent(tag);
    LowerIdempotent(key);
  }

  /** With the modal closed, an event aimed at anything but a form field always passes,
      and so does an event without a key name. */
  lemma OtherEventsPass(pinModalOpen: bool, targetTag: Option<string>, key: Option<string>)
    requires (!pinModalOpen && Lower(targetTag.GetOr("")) !in FormTags) || key == None
    ensures !Suppresses(pinModalOpen, targetTag, key)
  {
    assert Lower("") == "";
  }

  /** Shifted spellings of the orientation hotkeys are held back while the modal is
      open, whatever the target. */
  lemma OrientationHotkeysHeldInModal(targetTag: Option<string>)
    ensures Suppresses(true, targetTag, Some("Y"))
    ensures Suppresses(true, targetTag, Some("Z"))
    ensures Suppresses(true, targetTag, Some("R"))
  {
    assert Lower("Y") == "y";
    assert Lower("Z") == "z";
    assert Lower("R") == "r";
  }

  /** Arrow keys typed into an upper-case "INPUT" tag are held back; a key outside the
      set, such as Enter, reaches the field. */
  lemma FormFieldExamples()
    ensures Suppresses(false, Some("INPUT"), Some("ArrowUp"))
    ensures !Suppresses(false, Some("INPUT"), Some("Enter"))
    ensures !Suppresses(false, Some("DIV"), Some("w"))
  {
    assert Lower("INPUT") == "input";
    assert Lower("ArrowUp") == "arrowup";
    assert Lower("Enter") == "enter";
    assert Lower("DIV") == "div";
  }
}
