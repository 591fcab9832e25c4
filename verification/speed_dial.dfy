/**
 * The speed-dial widget (src/widgets/builtin/speeddial/SpeedDial.jsx): a
 * QWERTY keyboard whose letter keys can each be bound to a URL. Bindings are
 * kept under lower-case keys; saving normalises the URL's scheme, a blank URL
 * deletes the binding, and the key size follows the container's size within
 * fixed bounds. The store write of `updateWidget`/`updateWidgetInstance` is
 * folded into the widget's own `bindings` field.
 */
module SpeedDial {
  import opened Wrappers
  import opened Strings

  /** The bindings object: lower-case letter to URL. */
  type Bindings = map<string, string>

  /** `KEYBOARD_LAYOUT`: three rows of upper-case letters. */
  const KeyboardLayout: seq<seq<string>> := [
    ["Q", "W", "E", "R", "T", "Y", "U", "I", "O", "P"],
    ["A", "S", "D", "F", "G", "H", "J", "K", "L"],
    ["Z", "X", "C", "V", "B", "N", "M"]
  ]

  /** The keys of the layout, row after row. */
  function LayoutKeys(): seq<string> {
    KeyboardLayout[0] + KeyboardLayout[1] + KeyboardLayout[2]
  }

  /** The test `/^[a-z]$/.test(key.toLowerCase())` of the key handlers. */
  predicate IsLetterKey(key: string) {
    var k := Lower(key);
    |k| == 1 && 'a' <= k[0] <= 'z'
  }

  /** The letter filter accepts exactly the one-character keys that are an ASCII letter of either case. */
  lemma {:induction false} LetterKeyIff(key: string)
    ensures IsLetterKey(key) <==> |key| == 1 && ('a' <= key[0] <= 'z' || 'A' <= key[0] <= 'Z')
  {
    if |key| == 1 {
      assert Lower(key)[0] == LowerChar(key[0]);
    }
  }

  /** The layout has rows of 10, 9 and 7 keys. */
  lemma {:induction false} KeyboardLayoutRows()
    ensures |KeyboardLayout| == 3
    ensures |KeyboardLayout[0]| == 10 && |KeyboardLayout[1]| == 9 && |KeyboardLayout[2]| == 7
    ensures |LayoutKeys()| == 26
  {
  }

  /** Every key of the layout is one upper-case letter, and the letter filter accepts it. */
  lemma {:induction false} LayoutKeysAreLetters()
    ensures forall k :: k in LayoutKeys() ==> |k| == 1 && 'A' <= k[0] <= 'Z'
    ensures forall k :: k in LayoutKeys() ==> IsLetterKey(k)
  {
    var keys := LayoutKeys();
    forall k | k in keys ensures |k| == 1 && 'A' <= k[0] <= 'Z' && IsLetterKey(k) {
      LetterKeyIff(k);
    }
  }

  /** The index of a letter among the layout's keys, row after row; -1 for any other character. */
  function LayoutPosition(c: char): int {
    if c == 'Q' then 0
    else if c == 'W' then 1
    else if c == 'E' then 2
    else if c == 'R' then 3
    else if c == 'T' then 4
    else if c == 'Y' then 5
    else if c == 'U' then 6
    else if c == 'I' then 7
    else if c == 'O' then 8
    else if c == 'P' then 9
    else if c == 'A' then 10
    else if c == 'S' then 11
    else if c == 'D' then 12
    else if c == 'F' then 13
    else if c == 'G' then 14
    else if c == 'H' then 15
    else if c == 'J' then 16
    else if c == 'K' then 17
    else if c == 'L' then 18
    else if c == 'Z' then 19
    else if c == 'X' then 20
    else if c == 'C' then 21
    else if c == 'V' then 22
    else if c == 'B' then 23
    else if c == 'N' then 24
    else if c == 'M' then 25
    else -1
  }

  /** No key occurs twice in the layout, so its 26 keys are the 26 letters. */
  lemma {:induction false} LayoutKeysDistinct()
    ensures forall i, j :: 0 <= i < j < |LayoutKeys()| ==> LayoutKeys()[i] != LayoutKeys()[j]
  {
    var keys := LayoutKeys();
    assert keys == ["Q", "W", "E", "R", "T", "Y", "U", "I", "O", "P",
      "A", "S", "D", "F", "G", "H", "J", "K", "L", "Z", "X", "C", "V", "B", "N", "M"];
    forall i | 0 <= i < 26 ensures LayoutPosition(keys[i][0]) == i {
      if i == 0 { } else if i == 1 { } else if i == 2 { } else if i == 3 { } else if i == 4 { } else if i == 5 { } else if i == 6 { } else if i == 7 { } else if i == 8 { } else if i == 9 { } else if i == 10 { } else if i == 11 { } else if i == 12 { } else if i == 13 { } else if i == 14 { } else if i == 15 { } else if i == 16 { } else if i == 17 { } else if i == 18 { } else if i == 19 { } else if i == 20 { } else if i == 21 { } else if i == 22 { } else if i == 23 { } else if i == 24 { } else if i == 25 { }
    }
  }

  /** The binding under `key`, or `''` (`bindings[key] || ''`). */
  function Lookup(bindings: Bindings, key: string): (r: string)
    ensures key in bindings ==> r == bindings[key]
    ensures key !in bindings ==> r == ""
  {
    if key in bindings then bindings[key] else ""
  }

  /** The URL as saved: `https://` is put in front unless it starts with `http://` or `https://` (case-sensitive). */
  function WithScheme(url: string): (r: string)
    ensures StartsWith(r, "http://") || StartsWith(r, "https://")
    ensures StartsWith(url, "http://") || StartsWith(url, "https://") ==> r == url
    ensures |url| <= |r| && r[|r| - |url|..] == url
  {
    if StartsWith(url, "http://") || StartsWith(url, "https://") then url else "https://" + url
  }

  /** Saving twice gives what saving once gives. */
  lemma {:induction false} WithSchemeIdempotent(url: string)
    ensures WithScheme(WithScheme(url)) == WithScheme(url)
  {
  }

  /**
   * The new bindings of `saveKeyBinding` for key `key` and input `url`: a
   * blank input deletes the lower-cased key, any other input stores the
   * trimmed URL with its scheme under it.
   */
  function SavedBindings(bindings: Bindings, key: string, url: string): (r: Bindings)
  {
    var k := Lower(key);
    if Trim(url) == "" then bindings - {k} else bindings[k := WithScheme(Trim(url))]
  }

  /** What saving does to each key: only the lower-cased key changes, as the two branches say. */
  lemma {:induction false} SavedBindingsMeans(bindings: Bindings, key: string, url: string)
    ensures var r, k := SavedBindings(bindings, key, url), Lower(key);
      && (forall other :: other != k ==> (other in r <==> other in bindings))
      && (forall other :: other != k && other in r ==> r[other] == bindings[other])
      && (Trim(url) == "" <==> k !in r)
      && (k in r ==> r[k] == WithScheme(Trim(url)) && r[k] != "")
  {
    var k := Lower(key);
    var r := SavedBindings(bindings, key, url);
    if Trim(url) != "" {
      assert r[k] == WithScheme(Trim(url));
      assert StartsWith(r[k], "http://") || StartsWith(r[k], "https://");
    }
  }

  /** `removeBinding(key)`: the lower-cased key is deleted. */
  function RemovedBindings(bindings: Bindings, key: string): (r: Bindings)
  {
    bindings - {Lower(key)}
  }

  /** Removing deletes exactly the lower-cased key, and is what saving a blank URL does. */
  lemma {:induction false} RemovedBindingsMeans(bindings: Bindings, key: string)
    ensures var r := RemovedBindings(bindings, key);
      && Lower(key) !in r
      && (forall other :: other != Lower(key) ==> (other in r <==> other in bindings))
      && (forall other :: other in r ==> r[other] == bindings[other])
    ensures RemovedBindings(bindings, key) == SavedBindings(bindings, key, "")
  {
    assert Trim("") == "";
  }

  /** The edit dialog's prefill as written, `bindings[key] || ''` with the key as displayed. */
  function PrefillAsWritten(bindings: Bindings, key: string): (r: string)
    ensures r == Lookup(bindings, key)
  {
    if key in bindings && bindings[key] != "" then bindings[key] else ""
  }

  /**
   * A URL saved for the displayed key `Q` is stored under `q`, where the
   * prefill as written does not look, so the dialog opens blank.
   */
  lemma {:induction false} PrefillAsWrittenMissesBinding(bindings: Bindings, url: string)
    requires "Q" !in bindings && Trim(url) != ""
    ensures var b := SavedBindings(bindings, "Q", url);
      && "q" in b && b["q"] != ""
      && PrefillAsWritten(b, "Q") == ""
  {
    assert Lower("Q")[0] == LowerChar('Q');
    assert Lower("Q") == "q";
    SavedBindingsMeans(bindings, "Q", url);
  }

  /**
   * Opening the displayed key `Q` on a binding stored under `q` and saving
   * the dialog as it opened deletes that binding.
   */
  lemma {:induction false} ReopenedBlankDialogErasesBinding(bindings: Bindings)
    requires "Q" !in bindings && "q" in bindings
    ensures PrefillAsWritten(bindings, "Q") == ""
    ensures "q" !in SavedBindings(bindings, "Q", PrefillAsWritten(bindings, "Q"))
  {
    assert Lower("Q")[0] == LowerChar('Q');
    assert Lower("Q") == "q";
    assert Trim("") == "";
  }

  /** The prefill with the lower-cased key, as the bindings are stored. */
  function Prefill(bindings: Bindings, key: string): (r: string)
    ensures r == Lookup(bindings, Lower(key))
  {
    var k := Lower(key);
    if k in bindings && bindings[k] != "" then bindings[k] else ""
  }

  /** Opening the dialog on a key just saved shows what was saved, and nothing after a blank save. */
  lemma {:induction false} PrefillAfterSave(bindings: Bindings, key: string, url: string)
    ensures Trim(url) != "" ==> Prefill(SavedBindings(bindings, key, url), key) == WithScheme(Trim(url))
    ensures Trim(url) == "" ==> Prefill(SavedBindings(bindings, key, url), key) == ""
  {
    SavedBindingsMeans(bindings, key, url);
  }

  /** Gap between keys and the container's padding, in pixels. */
  const Gap := 8
  const Padding := 12
  const MinKeySize := 30
  const MaxKeySize := 80

  /** Ten keys and nine gaps fit the width, three keys and two gaps the height. */
  predicate Fits(size: int, width: int, height: int) {
    10 * size + 9 * Gap + 2 * Padding <= width && 3 * size + 2 * Gap + 2 * Padding <= height
  }

  function MinReal(a: real, b: real): real {
    if a <= b then a else b
  }

  /**
   * `updateKeySize` for a container of `width` by `height` pixels: the
   * largest whole size that fits, kept within 30 and 80.
   */
  function KeySize(width: int, height: int): (r: int)
    ensures MinKeySize <= r <= MaxKeySize
  {
    var byWidth := ((width - Padding * 2) as real - (Gap * 9) as real) / 10.0;
    var byHeight := ((height - Padding * 2) as real - (Gap * 2) as real) / 3.0;
    var calculated := MinReal(byWidth, byHeight).Floor;
    if calculated < MinKeySize then MinKeySize
    else if calculated > MaxKeySize then MaxKeySize
    else calculated
  }

  /** Above the lower bound the keys fit; below the upper bound one pixel more would not. */
  lemma {:induction false} KeySizeFits(width: int, height: int)
    ensures KeySize(width, height) > MinKeySize ==> Fits(KeySize(width, height), width, height)
    ensures KeySize(width, height) < MaxKeySize ==> !Fits(KeySize(width, height) + 1, width, height)
  {
    var byWidth := ((width - Padding * 2) as real - (Gap * 9) as real) / 10.0;
    var byHeight := ((height - Padding * 2) as real - (Gap * 2) as real) / 3.0;
    var m := MinReal(byWidth, byHeight);
    var c := m.Floor;
    assert c as real <= m < c as real + 1.0;
    var r := KeySize(width, height);
    if r > MinKeySize {
      assert r <= c;
      assert (10 * r) as real <= 10.0 * byWidth;
      assert (3 * r) as real <= 3.0 * byHeight;
    }
    if r < MaxKeySize {
      assert r + 1 > c;
      assert m < (r + 1) as real;
      if m == byWidth {
        assert (10 * (r + 1)) as real > 10.0 * byWidth;
      } else {
        assert (3 * (r + 1)) as real > 3.0 * byHeight;
      }
    }
  }

  /** An edit key that is set (`editingKey` is truthy). */
  predicate IsSet(key: Option<string>) {
    key.Some? && key.value != ""
  }

  /** The widget's state. */
  class SpeedDialWidget {
    var bindings: Bindings
    var isEditing: bool
    var editingKey: Option<string>
    var editingUrl: string
    var pressedKey: Option<string>
    var keySize: int

    /** The initial state for the configured bindings. */
    constructor(configured: Bindings)
      ensures bindings == configured && !isEditing && editingKey == None && editingUrl == ""
      ensures pressedKey == None && keySize == 40
    {
      bindings := configured;
      isEditing := false;
      editingKey := None;
      editingUrl := "";
      pressedKey := None;
      keySize := 40;
    }

    /** `updateKeySize()` for the container's current size. */
    method UpdateKeySize(width: int, height: int)
      modifies this
      ensures keySize == KeySize(width, height) && MinKeySize <= keySize <= MaxKeySize
      ensures bindings == old(bindings) && isEditing == old(isEditing) && editingKey == old(editingKey)
      ensures editingUrl == old(editingUrl) && pressedKey == old(pressedKey)
    {
      keySize := KeySize(width, height);
    }

    /** The hidden edit button flips edit mode. */
    method ToggleEditing()
      modifies this
      ensures isEditing == !old(isEditing)
      ensures bindings == old(bindings) && editingKey == old(editingKey) && editingUrl == old(editingUrl)
      ensures pressedKey == old(pressedKey) && keySize == old(keySize)
    {
      isEditing := !isEditing;
    }

    /** The effect on the global edit mode: leaving it also leaves the widget's edit mode. */
    method GlobalEditModeChanged(globalEditMode: bool)
      modifies this
      ensures !globalEditMode && old(isEditing) ==> !isEditing && editingKey == None && editingUrl == ""
      ensures globalEditMode || !old(isEditing) ==>
        isEditing == old(isEditing) && editingKey == old(editingKey) && editingUrl == old(editingUrl)
      ensures bindings == old(bindings) && pressedKey == old(pressedKey) && keySize == old(keySize)
    {
      if !globalEditMode && isEditing {
        isEditing := false;
        editingKey := None;
        editingUrl := "";
      }
    }

    /**
     * `startEditKey(key)`: the dialog opens on the key as displayed, prefilled
     * with what is bound under that same key (so blank for an upper-case key
     * whose binding is stored lower-cased).
     */
    method StartEditKey(key: string)
      modifies this
      ensures editingKey == Some(key) && editingUrl == PrefillAsWritten(old(bindings), key)
      ensures bindings == old(bindings) && isEditing == old(isEditing)
      ensures pressedKey == old(pressedKey) && keySize == old(keySize)
    {
      editingKey := Some(key);
      editingUrl := PrefillAsWritten(bindings, key);
    }

    /** `saveKeyBinding()`: without an edit key nothing happens; otherwise the bindings are saved and the dialog closes. */
    method SaveKeyBinding()
      modifies this
      ensures !IsSet(old(editingKey)) ==>
        bindings == old(bindings) && editingKey == old(editingKey) && editingUrl == old(editingUrl)
      ensures IsSet(old(editingKey)) ==>
        bindings == SavedBindings(old(bindings), old(editingKey).value, old(editingUrl))
        && editingKey == None && editingUrl == ""
      ensures isEditing == old(isEditing) && pressedKey == old(pressedKey) && keySize == old(keySize)
    {
      if !IsSet(editingKey) {
        return;
      }
      bindings := SavedBindings(bindings, editingKey.value, editingUrl);
      editingKey := None;
      editingUrl := "";
    }

    /** `cancelEdit()`: the dialog closes and the bindings stay. */
    method CancelEdit()
      modifies this
      ensures editingKey == None && editingUrl == ""
      ensures bindings == old(bindings) && isEditing == old(isEditing)
      ensures pressedKey == old(pressedKey) && keySize == old(keySize)
    {
      editingKey := None;
      editingUrl := "";
    }

    /** `removeBinding(key)`. */
    method RemoveBinding(key: string)
      modifies this
      ensures bindings == RemovedBindings(old(bindings), key)
      ensures isEditing == old(isEditing) && editingKey == old(editingKey) && editingUrl == old(editingUrl)
      ensures pressedKey == old(pressedKey) && keySize == old(keySize)
    {
      bindings := RemovedBindings(bindings, key);
    }

    /** The window `keydown` listener, attached outside edit mode: a letter key outside a text field is highlighted. */
    method KeyDown(key: string, inTextField: bool)
      modifies this
      ensures !old(isEditing) && !inTextField && IsLetterKey(key) ==> pressedKey == Some(Lower(key))
      ensures old(isEditing) || inTextField || !IsLetterKey(key) ==> pressedKey == old(pressedKey)
      ensures bindings == old(bindings) && isEditing == old(isEditing) && editingKey == old(editingKey)
      ensures editingUrl == old(editingUrl) && keySize == old(keySize)
    {
      if isEditing || inTextField {
        return;
      }
      if IsLetterKey(key) {
        pressedKey := Some(Lower(key));
      }
    }

    /**
     * The window `keyup` listener: a letter key outside a text field clears
     * the highlight and opens the URL bound to it, when there is one.
     */
    method KeyUp(key: string, inTextField: bool) returns (url: Option<string>)
      modifies this
      ensures var accepted := !old(isEditing) && !inTextField && IsLetterKey(key);
        && (accepted ==> pressedKey == None)
        && (!accepted ==> pressedKey == old(pressedKey))
        && (url.Some? <==> accepted && Lower(key) in bindings && bindings[Lower(key)] != "")
        && (url.Some? ==> url.value == bindings[Lower(key)])
      ensures bindings == old(bindings) && isEditing == old(isEditing) && editingKey == old(editingKey)
      ensures editingUrl == old(editingUrl) && keySize == old(keySize)
    {
      url := None;
      if isEditing || inTextField || !IsLetterKey(key) {
        return;
      }
      pressedKey := None;
      var k := Lower(key);
      if k in bindings && bindings[k] != "" {
        url := Some(bindings[k]);
      }
    }
  }
}
