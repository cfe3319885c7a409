/**
 * Typing a puzzle into the board by hand: while a panel is selected for
 * editing, `Panel._on_keyboard_down` turns each key press into a change of
 * that panel's text, a move to the neighbouring panel, or a dialog.
 */
module PanelKeys {
  import opened Text


  /** The US-keyboard symbol under shift for each non-alphabetic key. */
  const ShiftSymbols: map<string, string> := map[
    "1" := "!", "2" := "@", "3" := "#", "4" := "$", "5" := "%",
    "6" := "^", "7" := "&", "8" := "*", "9" := "(", "0" := ")",
    "-" := "_", "=" := "+", "[" := "{", "]" := "}", "\\" := "|",
    ";" := ":", "'" := "\"", "," := "<", "." := ">", "/" := "?"]

  /** The keys that type themselves, upper-cased: letters, digits, then punctuation. */
  const Digits := "1234567890"
  const KeyPunctuation := "-=[]\\;',./"
  const TypedKeys := Letters + Digits + KeyPunctuation

  datatype Move = Forward | Backward

  /** What a key press on a panel being edited does. */
  datatype KeyOutcome =
    | Type(newText: string, move: Move)   // set the text, then select the next or previous panel
    | FinishEntry                         // enter: hide all panels, give the keyboard back to the board
    | Advance                             // spacebar: select the next panel
    | SaveDialog                          // ctrl+s
    | OpenDialog                          // ctrl+o
    | NoEffect

  lemma TypedLetter(c: char)
    requires 'a' <= c <= 'z'
    ensures IsSubstring([c], TypedKeys)
  {
    SingleCharSubstring(c, Letters);
    InLetters(c);
    SubstringOfLeft([c], Letters, Digits);
    SubstringOfLeft([c], Letters + Digits, KeyPunctuation);
  }

  lemma InDigits(c: char)
    requires '0' <= c <= '9'
    ensures c in Digits
  {
    assert |Digits| == 10;
    if c == '0' {
      assert Digits[9] == c;
    } else {
      assert Digits[c as int - '1' as int] == c;
    }
  }

  lemma TypedDigit(c: char)
    requires '0' <= c <= '9'
    ensures IsSubstring([c], TypedKeys)
  {
    SingleCharSubstring(c, Digits);
    InDigits(c);
    SubstringOfRight([c], Letters, Digits);
    SubstringOfLeft([c], Letters + Digits, KeyPunctuation);
  }

  lemma TypedPunctuation(c: char)
    requires c in KeyPunctuation
    ensures IsSubstring([c], TypedKeys)
  {
    SingleCharSubstring(c, KeyPunctuation);
    SubstringOfRight([c], Letters + Digits, KeyPunctuation);
  }

  predicate HasPair(h: string, x: char, y: char) {
    exists i :: 0 <= i < |h| - 1 && h[i] == x && h[i + 1] == y
  }

  /** A substring of length two or more puts its first two characters next to each other in `hay`. */
  lemma {:induction false} SubstringPair(needle: string, hay: string)
    requires |needle| >= 2
    ensures IsSubstring(needle, hay) ==> HasPair(hay, needle[0], needle[1])
    decreases |hay|
  {
    if IsSubstring(needle, hay) {
      if needle <= hay {
        assert hay[0] == needle[0] && hay[1] == needle[1];
      } else {
        SubstringPair(needle, hay[1..]);
        var i :| 0 <= i < |hay| - 2 && hay[1..][i] == needle[0] && hay[1..][i + 1] == needle[1];
        assert hay[i + 1] == needle[0] && hay[i + 2] == needle[1];
      }
    }
  }

  /** A neighbouring pair of `h + t` lies in `h`, in `t`, or across the seam. */
  lemma PairSplit(h: string, t: string, x: char, y: char)
    ensures HasPair(h + t, x, y) ==>
      HasPair(h, x, y) || HasPair(t, x, y) || (|h| > 0 && |t| > 0 && h[|h| - 1] == x && t[0] == y)
  {
    if HasPair(h + t, x, y) {
      var i :| 0 <= i < |h + t| - 1 && (h + t)[i] == x && (h + t)[i + 1] == y;
      if i < |h| - 1 {
        assert h[i] == x && h[i + 1] == y;
      } else if i >= |h| {
        assert t[i - |h|] == x && t[i - |h| + 1] == y;
      }
    }
  }

  predicate Lowercase(c: char) { 'a' <= c <= 'z' }

  /** Neighbours in the alphabet are consecutive letters. */
  lemma LetterPairs(x: char, y: char)
    ensures HasPair(Letters, x, y) ==> y as int == x as int + 1
  {
    if HasPair(Letters, x, y) {
      var i :| 0 <= i < |Letters| - 1 && Letters[i] == x && Letters[i + 1] == y;
    }
  }

  /** A string without lower-case letters has no pair starting with one. */
  lemma NoLowercasePair(s: string, x: char, y: char)
    requires forall j :: 0 <= j < |s| ==> !Lowercase(s[j])
    requires Lowercase(x)
    ensures !HasPair(s, x, y)
  {
  }

  /** Two lower-case letters that are not alphabet neighbours are nowhere next to each other in the typed keys. */
  lemma NoTypedPair(x: char, y: char)
    requires Lowercase(x) && Lowercase(y) && y as int != x as int + 1
    ensures !HasPair(TypedKeys, x, y)
  {
    assert |Digits| == 10 && Digits[0] == '1' && Digits[9] == '0';
    assert forall j :: 0 <= j < |Digits| ==> !Lowercase(Digits[j]);
    assert forall j :: 0 <= j < |KeyPunctuation| ==> !Lowercase(KeyPunctuation[j]);
    LetterPairs(x, y);
    NoLowercasePair(Digits, x, y);
    NoLowercasePair(KeyPunctuation, x, y);
    PairSplit(Letters, Digits, x, y);
    PairSplit(Letters + Digits, KeyPunctuation, x, y);
    assert (Letters + Digits)[|Letters + Digits| - 1] == '0';
  }

  /** A key name that starts with two lower-case letters out of alphabet order is not a typed key. */
  lemma NamedKeyNotTyped(key: string)
    requires |key| >= 2 && Lowercase(key[0]) && Lowercase(key[1]) && key[1] as int != key[0] as int + 1
    ensures !IsSubstring(key, TypedKeys)
  {
    NoTypedPair(key[0], key[1]);
    SubstringPair(key, TypedKeys);
  }

  /** `Panel._on_keyboard_down`: what a key does to the panel being edited. */
  function KeyEntry(key: string, modifiers: set<string>): KeyOutcome {
    if "ctrl" in modifiers then
      if key == "s" then SaveDialog
      else if key == "o" then OpenDialog
      else NoEffect
    else if "shift" in modifiers && key in ShiftSymbols then
      Type(ShiftSymbols[key], Forward)
    else if IsSubstring(key, TypedKeys) then
      Type(Upper(key), Forward)
    else if key == "backspace" then
      Type("", Backward)
    else if key == "enter" then
      FinishEntry
    else if key == "spacebar" then
      Advance
    else
      NoEffect
  }

  /** A letter or digit key without ctrl or shift types itself in upper case. */
  lemma KeyTypesItself(key: string, modifiers: set<string>)
    requires "ctrl" !in modifiers && "shift" !in modifiers
    requires |key| == 1 && ('a' <= key[0] <= 'z' || '0' <= key[0] <= '9')
    ensures KeyEntry(key, modifiers) == Type(Upper(key), Forward)
  {
    if 'a' <= key[0] <= 'z' {
      TypedLetter(key[0]);
    } else {
      TypedDigit(key[0]);
    }
    assert key == [key[0]];
  }

  /** Letters have no shift symbol: with or without shift a letter key types its capital. */
  lemma ShiftedLetter(key: string, modifiers: set<string>)
    requires "ctrl" !in modifiers && |key| == 1 && 'a' <= key[0] <= 'z'
    ensures KeyEntry(key, modifiers) == Type(Upper(key), Forward)
  {
    TypedLetter(key[0]);
    assert key == [key[0]];
    assert key !in ShiftSymbols;
  }

  /** An unshifted punctuation key types itself; upper-casing leaves it alone. */
  lemma PunctuationKey(key: string, modifiers: set<string>)
    requires "ctrl" !in modifiers && "shift" !in modifiers && |key| == 1 && key[0] in KeyPunctuation
    ensures KeyEntry(key, modifiers) == Type(key, Forward)
  {
    TypedPunctuation(key[0]);
    assert key == [key[0]];
    assert Upper(key) == key;
  }

  /** Every key of the shift table is a single character. */
  lemma ShiftKeysAreSingle()
    ensures forall k :: k in ShiftSymbols ==> |k| == 1
  {
  }

  /** The named keys are never typed as text. */
  lemma NamedKeys(key: string, modifiers: set<string>)
    requires "ctrl" !in modifiers && key in {"backspace", "enter", "spacebar"}
    ensures key == "backspace" ==> KeyEntry(key, modifiers) == Type("", Backward)
    ensures key == "enter" ==> KeyEntry(key, modifiers) == FinishEntry
    ensures key == "spacebar" ==> KeyEntry(key, modifiers) == Advance
  {
    ShiftKeysAreSingle();
    NamedKeyNotTyped(key);
  }

  /**
   * Ctrl only opens the dialogs; shift gives the symbol of a non-letter key;
   * a letter, digit or punctuation key types itself in upper case and moves
   * on, and so does a letter with shift held, since letters have no entry in
   * the shift table; backspace clears the panel and moves back; enter
   * finishes the entry; the space bar moves on without typing; every other
   * key does nothing.
   */
  lemma KeyEntryCases(key: string, modifiers: set<string>)
    ensures "ctrl" in modifiers ==>
      KeyEntry(key, modifiers) == (if key == "s" then SaveDialog else if key == "o" then OpenDialog else NoEffect)
    ensures "ctrl" !in modifiers && "shift" in modifiers && key in ShiftSymbols ==>
      KeyEntry(key, modifiers) == Type(ShiftSymbols[key], Forward)
    ensures "ctrl" !in modifiers && "shift" !in modifiers && |key| == 1 && ('a' <= key[0] <= 'z' || '0' <= key[0] <= '9') ==>
      KeyEntry(key, modifiers) == Type(Upper(key), Forward)
    ensures "ctrl" !in modifiers && key == "backspace" ==> KeyEntry(key, modifiers) == Type("", Backward)
    ensures "ctrl" !in modifiers && key == "enter" ==> KeyEntry(key, modifiers) == FinishEntry
    ensures "ctrl" !in modifiers && key == "spacebar" ==> KeyEntry(key, modifiers) == Advance
    ensures "ctrl" !in modifiers && |key| == 1 && 'a' <= key[0] <= 'z' ==>
      KeyEntry(key, modifiers) == Type(Upper(key), Forward)
    ensures "ctrl" !in modifiers && "shift" !in modifiers && |key| == 1 && key[0] in KeyPunctuation ==>
      KeyEntry(key, modifiers) == Type(key, Forward)
    ensures "ctrl" !in modifiers && !("shift" in modifiers && key in ShiftSymbols) && IsSubstring(key, TypedKeys) ==>
      KeyEntry(key, modifiers) == Type(Upper(key), Forward)
    ensures ("ctrl" !in modifiers && !("shift" in modifiers && key in ShiftSymbols) && !IsSubstring(key, TypedKeys) &&
             key !in {"backspace", "enter", "spacebar"}) ==>
      KeyEntry(key, modifiers) == NoEffect
  {
    if "ctrl" !in modifiers && |key| == 1 && 'a' <= key[0] <= 'z' {
      ShiftedLetter(key, modifiers);
    }
    if "ctrl" !in modifiers && "shift" !in modifiers && |key| == 1 && key[0] in KeyPunctuation {
      PunctuationKey(key, modifiers);
    }
    if "ctrl" !in modifiers && "shift" !in modifiers && |key| == 1 && ('a' <= key[0] <= 'z' || '0' <= key[0] <= '9') {
      KeyTypesItself(key, modifiers);
    }
    if "ctrl" !in modifiers && key in {"backspace", "enter", "spacebar"} {
      NamedKeys(key, modifiers);
    }
  }
}
