/**
 QemuOpts property lists: comma-doubling on the way out, and the reader that undoes it.

 QEMU splits an option value at single commas and reads a doubled comma as one literal
 comma, left to right.
 */
module QemuOpts {
  /** `value.replace(',', ",,")`. */
  function Escape(value: string): string {
    if value == "" then "" else (if value[0] == ',' then ",," else [value[0]]) + Escape(value[1..])
  }

  /** `parts.join(",")`. */
  function Join(parts: seq<string>): string {
    if parts == [] then ""
    else if |parts| == 1 then parts[0]
    else parts[0] + "," + Join(parts[1..])
  }

  /** An option value whose properties are `props`. */
  function Render(props: seq<string>): string {
    if props == [] then ""
    else if |props| == 1 then Escape(props[0])
    else Escape(props[0]) + "," + Render(props[1..])
  }

  /** Put `c` in front of the first property. */
  function Prepend(c: char, props: seq<string>): (r: seq<string>)
    requires props != []
    ensures |r| == |props| && r[0] == [c] + props[0]
  {
    [[c] + props[0]] + props[1..]
  }

  /** The reader: undouble commas, split at the single ones. */
  function Split(s: string): (props: seq<string>)
    ensures props != []
    decreases |s|
  {
    if s == "" then [""]
    else if s[0] != ',' then Prepend(s[0], Split(s[1..]))
    else if |s| > 1 && s[1] == ',' then Prepend(',', Split(s[2..]))
    else [""] + Split(s[1..])
  }

  /** No property after the first begins with a comma, and only the first or last may be empty. */
  predicate Separable(props: seq<string>) {
    forall i :: 1 <= i < |props| ==> if props[i] == "" then i == |props| - 1 else props[i][0] != ','
  }

  predicate CommaFree(s: string) {
    ',' !in s
  }

  function PrependAll(s: string, props: seq<string>): seq<string>
    requires props != []
  {
    [s + props[0]] + props[1..]
  }

  lemma SplitDoubled(rest: string)
    ensures Split(",," + rest) == Prepend(',', Split(rest))
  {
    assert (",," + rest)[2..] == rest;
  }

  lemma SplitPlain(c: char, rest: string)
    requires c != ','
    ensures Split([c] + rest) == Prepend(c, Split(rest))
  {
    assert ([c] + rest)[1..] == rest;
  }

  /** An escaped value is read back whole, whatever follows it. */
  lemma {:induction false} SplitEscaped(value: string, rest: string)
    ensures Split(Escape(value) + rest) == PrependAll(value, Split(rest))
  {
    hide Split;
    if value == "" {
      assert Escape(value) + rest == rest;
      assert "" + Split(rest)[0] == Split(rest)[0];
    } else {
      var tail := Escape(value[1..]) + rest;
      SplitEscaped(value[1..], rest);
      assert [value[0]] + (value[1..] + Split(rest)[0]) == value + Split(rest)[0];
      if value[0] == ',' {
        SplitDoubled(tail);
        assert Escape(value) + rest == ",," + tail;
      } else {
        SplitPlain(value[0], tail);
        assert Escape(value) + rest == [value[0]] + tail;
      }
    }
  }

  lemma RenderStart(props: seq<string>)
    requires props != []
    ensures (Render(props) != "" && Render(props)[0] == ',') <==>
      (if props[0] == "" then |props| > 1 else props[0][0] == ',')
  {
  }

  lemma SeparableTail(props: seq<string>)
    requires |props| > 1
    ensures Separable(props) <==>
      Separable(props[1..]) && (if props[1] == "" then |props| == 2 else props[1][0] != ',')
  {
    var rest := props[1..];
    forall i | 1 <= i < |rest|
      ensures (if rest[i] == "" then i == |rest| - 1 else rest[i][0] != ',')
        <==> (if props[i + 1] == "" then i + 1 == |props| - 1 else props[i + 1][0] != ',')
    {
    }
    if Separable(rest) && (if props[1] == "" then |props| == 2 else props[1][0] != ',') {
      forall i | 1 <= i < |props|
        ensures if props[i] == "" then i == |props| - 1 else props[i][0] != ','
      {
        assert i > 1 ==> rest[i - 1] == props[i];
      }
    }
    if Separable(props) {
      assert forall i :: 1 <= i < |rest| ==> rest[i] == props[i + 1];
    }
  }

  /** Printing and reading a property list are inverse exactly when it is separable. */
  lemma {:induction false} SplitRender(props: seq<string>)
    requires props != []
    ensures Split(Render(props)) == props <==> Separable(props)
    decreases |props|
  {
    if |props| == 1 {
      assert Escape(props[0]) + "" == Escape(props[0]);
      SplitEscaped(props[0], "");
      assert props[0] + "" == props[0];
    } else {
      var rest := props[1..];
      var tail := "," + Render(rest);
      assert Render(props) == Escape(props[0]) + tail;
      SplitEscaped(props[0], tail);
      SeparableTail(props);
      RenderStart(rest);
      assert tail[1..] == Render(rest);
      if Render(rest) != "" && Render(rest)[0] == ',' {
        assert |Split(tail)[0]| > 0;
        assert Split(Render(props))[0] == props[0] + Split(tail)[0];
      } else {
        assert Split(tail) == [""] + Split(Render(rest));
        assert props[0] + "" == props[0];
        assert Split(Render(props)) == [props[0]] + Split(Render(rest));
        assert props == [props[0]] + rest;
        SplitRender(rest);
      }
    }
  }

  /** A list that is not separable is misread: the commas are taken from the left. */
  lemma MisreadExample()
    ensures Render(["a", ",b"]) == "a,,,b" && Split("a,,,b") == ["a,", "b"]
  {
    SplitPlain('b', "");
    assert ['b'] + "" == "b" && Split("b") == ["b"];
    assert ",b"[1..] == "b" && Split(",b") == ["", "b"];
    SplitDoubled(",b");
    assert [','] + "" == "," && ["", "b"][1..] == ["b"];
    assert ",," + ",b" == ",,,b" && Split(",,,b") == [",", "b"];
    SplitPlain('a', ",,,b");
    assert ['a'] + ",,,b" == "a,,,b" && ['a'] + "," == "a," && [",", "b"][1..] == ["b"];
    assert Split("a,,,b") == ["a,", "b"];
    assert ",b"[1..] == "b" && Escape("b") == "b" && Escape(",b") == ",,b";
    assert ["a", ",b"][1..] == [",b"] && Render([",b"]) == ",,b";
    assert Escape("a") == "a";
  }

  lemma {:induction false} EscapeCommaFree(s: string)
    requires CommaFree(s)
    ensures Escape(s) == s
  {
    if s != "" {
      EscapeCommaFree(s[1..]);
    }
  }

  lemma {:induction false} EscapeConcat(s: string, t: string)
    ensures Escape(s + t) == Escape(s) + Escape(t)
  {
    if s == "" {
      assert s + t == t;
    } else {
      assert (s + t)[1..] == s[1..] + t;
      EscapeConcat(s[1..], t);
    }
  }

  /** Joining parts that are already escaped is rendering the properties they stand for. */
  lemma {:induction false} JoinIsRender(parts: seq<string>, props: seq<string>)
    requires |parts| == |props| && forall i :: 0 <= i < |parts| ==> parts[i] == Escape(props[i])
    ensures Join(parts) == Render(props)
    decreases |parts|
  {
    if |parts| > 1 {
      JoinIsRender(parts[1..], props[1..]);
    }
  }

  /** A key and an arbitrary value, escaped only in the value, as the code writes it. */
  lemma EscapeKeyValue(key: string, value: string)
    requires CommaFree(key)
    ensures key + Escape(value) == Escape(key + value)
  {
    EscapeConcat(key, value);
    EscapeCommaFree(key);
  }
}
