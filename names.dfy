/**
 * The name-acceptance rule of the name dialog in gametest.java: the OK
 * button accepts the text field only when its trimmed text is not empty, and
 * the name kept is the trimmed text. Closing the dialog leaves no name.
 */
module NameInput {

  datatype Option<T> = None | Some(value: T)

  /** `String.trim` removes leading and trailing characters up to U+0020 (spaces and control characters). */
  predicate IsTrimmed(c: char) {
    c <= ' '
  }

  /** `s` without its leading trimmed characters. */
  function TrimStart(s: string): (r: string)
    ensures |r| <= |s| && r == s[|s| - |r|..]
    ensures forall k :: 0 <= k < |s| - |r| ==> IsTrimmed(s[k])
    ensures r == [] || !IsTrimmed(r[0])
  {
    if s != [] && IsTrimmed(s[0]) then TrimStart(s[1..]) else s
  }

  /** `s` without its trailing trimmed characters. */
  function TrimEnd(s: string): (r: string)
    ensures |r| <= |s| && r == s[..|r|]
    ensures forall k :: |r| <= k < |s| ==> IsTrimmed(s[k])
    ensures r == [] || !IsTrimmed(r[|r| - 1])
  {
    if s != [] && IsTrimmed(s[|s| - 1]) then TrimEnd(s[..|s| - 1]) else s
  }

  /** `String.trim`. */
  function Trim(s: string): string {
    TrimEnd(TrimStart(s))
  }

  /**
   * The trimmed text is the slice of `s` that starts after the leading
   * trimmed characters and is followed only by trimmed characters.
   */
  lemma TrimSlice(s: string)
    ensures |s| - |TrimStart(s)| + |Trim(s)| <= |s|
    ensures Trim(s) == s[|s| - |TrimStart(s)|..|s| - |TrimStart(s)| + |Trim(s)|]
    ensures forall k :: |s| - |TrimStart(s)| + |Trim(s)| <= k < |s| ==> IsTrimmed(s[k])
  {
    var t := TrimStart(s);
    var r := TrimEnd(t);
    var i := |s| - |t|;
    assert r == t[..|r|];
    forall k | i + |r| <= k < |s| ensures IsTrimmed(s[k]) {
      assert s[k] == t[k - i];
    }
  }

  /** The trimmed text is empty exactly when every character of `s` is trimmed. */
  lemma TrimEmpty(s: string)
    ensures Trim(s) == [] <==> forall k :: 0 <= k < |s| ==> IsTrimmed(s[k])
  {
    TrimSlice(s);
    var i := |s| - |TrimStart(s)|;
    if Trim(s) != [] {
      assert Trim(s)[0] == s[i];
    }
  }

  /** Trimming twice is trimming once. */
  lemma TrimIdempotent(s: string)
    ensures Trim(Trim(s)) == Trim(s)
  {
    var r := Trim(s);
    TrimSlice(s);
    if r != [] {
      assert TrimStart(r) == r;
      assert TrimEnd(r) == r;
    }
  }

  /** One press of OK: the name it accepts, if any. */
  function AcceptedName(text: string): (r: Option<string>)
    ensures r.Some? <==> exists k :: 0 <= k < |text| && !IsTrimmed(text[k])
    ensures r.Some? ==> r.value == Trim(text) && r.value != []
  {
    TrimEmpty(text);
    if Trim(text) != [] then Some(Trim(text)) else None
  }

  /**
   * The modal dialog: `presses` are the texts of the field at each press of
   * OK. The first accepted one closes the dialog and is its name; if none is
   * accepted the dialog was closed and yields no name.
   */
  function DialogName(presses: seq<string>): Option<string> {
    if presses == [] then None
    else if AcceptedName(presses[0]).Some? then AcceptedName(presses[0])
    else DialogName(presses[1..])
  }

  /** Some press accepts a name. */
  predicate SomeAccepted(presses: seq<string>) {
    exists i :: 0 <= i < |presses| && AcceptedName(presses[i]).Some?
  }

  /**
   * The dialog yields a name exactly when some press is accepted, and then it
   * is the name of the first accepted press: the presses before it were
   * refused.
   */
  lemma {:induction false} DialogNameIsFirstAccepted(presses: seq<string>)
    ensures DialogName(presses).Some? <==> SomeAccepted(presses)
    ensures DialogName(presses).Some? ==>
      exists i :: 0 <= i < |presses| && AcceptedName(presses[i]) == DialogName(presses)
        && forall j :: 0 <= j < i ==> AcceptedName(presses[j]).None?
  {
    if presses != [] && AcceptedName(presses[0]).None? {
      var rest := presses[1..];
      DialogNameIsFirstAccepted(rest);
      if SomeAccepted(presses) {
        var i :| 0 <= i < |presses| && AcceptedName(presses[i]).Some?;
        assert rest[i - 1] == presses[i];
      }
      if DialogName(rest).Some? {
        var i :| 0 <= i < |rest| && AcceptedName(rest[i]) == DialogName(rest)
          && forall j :: 0 <= j < i ==> AcceptedName(rest[j]).None?;
        assert presses[i + 1] == rest[i];
        forall j | 0 <= j < i + 1 ensures AcceptedName(presses[j]).None? {
          if j > 0 {
            assert presses[j] == rest[j - 1];
          }
        }
      }
    }
  }
}
