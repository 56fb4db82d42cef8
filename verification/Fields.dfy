/** normalizeField and normalizeUsername (legacy_warehouse_service.cpp:13-24, legacy_startup.cpp:22-33). */
module Fields {
  import opened Characters

  function Flattened(value: string): (r: string)
    ensures |r| == |value|
    ensures forall i :: 0 <= i < |r| ==> r[i] == if value[i] in "\t\r\n" then ' ' else value[i]
  {
    if value == "" then ""
    else [if value[0] in "\t\r\n" then ' ' else value[0]] + Flattened(value[1..])
  }

  function LeftTrimmed(value: string): string {
    if value != "" && IsSpace(value[0]) then LeftTrimmed(value[1..]) else value
  }

  function RightTrimmed(value: string): string {
    if value != "" && IsSpace(value[|value| - 1]) then RightTrimmed(value[..|value| - 1]) else value
  }

  function Normalized(value: string): string {
    RightTrimmed(LeftTrimmed(Flattened(value)))
  }

  method Flatten(value: string) returns (r: string)
    ensures r == Flattened(value)
  {
    hide Flattened;
    r := "";
    for i := 0 to |value|
      invariant r == Flattened(value)[..i]
    {
      r := r + [if value[i] == '\t' || value[i] == '\r' || value[i] == '\n' then ' ' else value[i]];
    }
  }

  method Normalize(value: string) returns (r: string)
    ensures r == Normalized(value)
  {
    r := Flatten(value);
    hide Flattened, IsSpace;
    while r != "" && IsSpace(r[0])
      invariant LeftTrimmed(r) == LeftTrimmed(Flattened(value))
      decreases |r|
    {
      r := r[1..];
    }
    var left := r;
    while r != "" && IsSpace(r[|r| - 1])
      invariant RightTrimmed(r) == RightTrimmed(left)
      decreases |r|
    {
      r := r[..|r| - 1];
    }
  }

  /** A field in normal form: no tab, no line break, and no space at either end. */
  predicate Tidy(value: string) {
    (forall i :: 0 <= i < |value| ==> value[i] !in "\t\r\n") &&
    (value != "" ==> !IsSpace(value[0]) && !IsSpace(value[|value| - 1]))
  }

  lemma {:induction false} LeftTrimmedIsSuffix(value: string)
    ensures
      var n := |value| - |LeftTrimmed(value)|;
      0 <= n && LeftTrimmed(value) == value[n..] && (forall i :: 0 <= i < n ==> IsSpace(value[i])) &&
      (LeftTrimmed(value) != "" ==> !IsSpace(value[n]))
  {
    hide IsSpace;
    if value != "" && IsSpace(value[0]) {
      var rest := value[1..];
      LeftTrimmedIsSuffix(rest);
      assert forall i :: 1 <= i < |value| ==> value[i] == rest[i - 1];
    }
  }

  lemma {:induction false} RightTrimmedIsPrefix(value: string)
    ensures
      var n := |RightTrimmed(value)|;
      n <= |value| && RightTrimmed(value) == value[..n] && (forall i :: n <= i < |value| ==> IsSpace(value[i])) &&
      (RightTrimmed(value) != "" ==> !IsSpace(value[n - 1]))
  {
    hide IsSpace;
    if value != "" && IsSpace(value[|value| - 1]) {
      RightTrimmedIsPrefix(value[..|value| - 1]);
    }
  }

  predicate Blank(value: string) {
    forall i :: 0 <= i < |value| ==> IsSpace(value[i])
  }

  /** Normalising loses nothing but blank ends: only a blank field becomes empty. */
  lemma BlankExactly(value: string)
    ensures Normalized(value) == "" <==> Blank(value)
  {
    var flat := Flattened(value);
    var left := LeftTrimmed(flat);
    LeftTrimmedIsSuffix(flat);
    RightTrimmedIsPrefix(left);
    assert forall i :: 0 <= i < |value| ==> (IsSpace(flat[i]) <==> IsSpace(value[i]));
    if Normalized(value) == "" {
      assert left == "";
    } else {
      assert !IsSpace(flat[|flat| - |left|]);
    }
  }

  /** Normalising keeps the middle of the field, character by character, with plain spaces for tabs and breaks. */
  lemma MiddleKept(value: string) returns (from: nat, to: nat)
    ensures from <= to <= |value| && |Normalized(value)| == to - from
    ensures forall i :: 0 <= i < from || to <= i < |value| ==> IsSpace(value[i])
    ensures forall i :: from <= i < to ==> Normalized(value)[i - from] == if value[i] in "\t\r\n" then ' ' else value[i]
  {
    var flat := Flattened(value);
    var left := LeftTrimmed(flat);
    LeftTrimmedIsSuffix(flat);
    RightTrimmedIsPrefix(left);
    from := |flat| - |left|;
    to := from + |RightTrimmed(left)|;
    hide LeftTrimmed, RightTrimmed, Flattened, IsSpace;
    SpacesSurvive(value);
    assert |flat| == |value|;
    forall i | 0 <= i < from || to <= i < |value|
      ensures IsSpace(value[i])
    {
      assert i >= to ==> left[i - from] == flat[i];
      assert IsSpace(flat[i]);
    }
    forall i | from <= i < to
      ensures Normalized(value)[i - from] == flat[i]
    {
      assert left[i - from] == flat[i];
    }
  }

  lemma SpacesSurvive(value: string)
    ensures forall i :: 0 <= i < |value| ==> (IsSpace(Flattened(value)[i]) <==> IsSpace(value[i]))
  {
  }

  /** Normalising gives a tidy field and changes no tidy field. */
  lemma NormalForm(value: string)
    ensures Tidy(Normalized(value))
    ensures Tidy(value) ==> Normalized(value) == value
  {
    var flat := Flattened(value);
    var left := LeftTrimmed(flat);
    var right := RightTrimmed(left);
    hide LeftTrimmed, RightTrimmed, IsSpace;
    LeftTrimmedIsSuffix(flat);
    RightTrimmedIsPrefix(left);
    var n := |flat| - |left|;
    forall i | 0 <= i < |right|
      ensures right[i] !in "\t\r\n"
    {
      assert right[i] == flat[n + i];
    }
    if right != "" {
      assert right[0] == flat[n];
    }
    if Tidy(value) {
      assert flat == value;
      TidyStays(value);
    }
  }

  lemma TidyStays(value: string)
    requires Tidy(value)
    ensures LeftTrimmed(value) == value && RightTrimmed(value) == value
  {
  }
}
