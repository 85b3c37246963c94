/** The form field renderer's value handling: what a single input shows,
    and the `"start,end"` encoding behind the date-range and
    datetime-range inputs. */
module DynamicFormField {
  import opened Js

  /** A piece without the separator keeps that property when trimmed. */
  lemma TrimKeepsOut(p: string, c: char)
    requires c !in p
    ensures c !in Trim(p)
  {
    if c in Trim(p) {
      TrimSubset(p, c);
    }
  }

  /** `parseRange`: the two pieces of a stored range, each trimmed. A
      falsy value other than 0 is the empty range; pieces after the second
      are ignored and a missing one is empty. */
  function ParseRange(env: DateEnv, val: Value): (r: (string, string))
    ensures !Truthy(val) && val != Num(0) ==> r == ("", "")
    ensures IsTrimmed(r.0) && IsTrimmed(r.1)
    ensures ',' !in r.0 && ',' !in r.1
  {
    if !Truthy(val) && val != Num(0) then ("", "")
    else
      var parts := Split(ToJsString(env, val), ',');
      TrimKeepsOut(parts[0], ',');
      var second := if |parts| > 1 then parts[1] else "";
      TrimKeepsOut(second, ',');
      (Trim(parts[0]), Trim(second))
  }

  /** `${start},${end}`: the value the start and end inputs store when
      either one changes. Comma-free pieces split back apart. */
  function RangeValue(start: string, end: string): (r: string)
    ensures |r| == |start| + 1 + |end| && r[|start|] == ','
    ensures ',' !in start && ',' !in end ==> Split(r, ',') == [start, end]
  {
    var r := start + "," + end;
    if ',' !in start && ',' !in end then
      assert Join([start, end], ',') == r;
      SplitJoin([start, end], ',');
      r
    else r
  }

  /** Parsing the join of at least one comma-free piece gives the first two
      pieces trimmed, the second one empty when there is none. */
  lemma ParseRangeOfPieces(env: DateEnv, parts: seq<string>)
    requires |parts| >= 1 && Join(parts, ',') != ""
    requires forall k :: 0 <= k < |parts| ==> ',' !in parts[k]
    ensures ParseRange(env, Str(Join(parts, ','))) ==
      (Trim(parts[0]), if |parts| > 1 then Trim(parts[1]) else "")
  {
    var s := Join(parts, ',');
    assert Truthy(Str(s)) && ToJsString(env, Str(s)) == s;
    SplitJoin(parts, ',');
    assert Split(s, ',') == parts;
  }

  /** A range of two trimmed, comma-free pieces parses back to them. */
  lemma RangeRoundTrip(env: DateEnv, start: string, end: string)
    requires IsTrimmed(start) && IsTrimmed(end) && ',' !in start && ',' !in end
    ensures ParseRange(env, Str(start + "," + end)) == (start, end)
  {
    assert Join([start, end], ',') == start + "," + end;
    ParseRangeOfPieces(env, [start, end]);
    TrimOfTrimmed(start);
    TrimOfTrimmed(end);
  }

  /** Editing the start input keeps the end, and the stored value parses
      to the new start and the old end. */
  lemma EditStartRoundTrip(env: DateEnv, val: Value, newStart: string)
    requires IsTrimmed(newStart) && ',' !in newStart
    ensures ParseRange(env, Str(RangeValue(newStart, ParseRange(env, val).1)))
         == (newStart, ParseRange(env, val).1)
  {
    RangeRoundTrip(env, newStart, ParseRange(env, val).1);
  }

  /** Editing the end input keeps the start. */
  lemma EditEndRoundTrip(env: DateEnv, val: Value, newEnd: string)
    requires IsTrimmed(newEnd) && ',' !in newEnd
    ensures ParseRange(env, Str(RangeValue(ParseRange(env, val).0, newEnd)))
         == (ParseRange(env, val).0, newEnd)
  {
    RangeRoundTrip(env, ParseRange(env, val).0, newEnd);
  }

  /** A third piece is discarded. */
  lemma ThirdPieceIgnored(env: DateEnv, a: string, b: string, c: string)
    requires ',' !in a && ',' !in b && ',' !in c
    ensures ParseRange(env, Str(a + "," + b + "," + c)) == (Trim(a), Trim(b))
  {
    assert [a, b, c][1..] == [b, c] && [b, c][1..] == [c];
    assert Join([c], ',') == c;
    assert Join([b, c], ',') == b + [','] + c;
    assert Join([a, b, c], ',') == a + [','] + (b + [','] + c);
    assert a + "," + b + "," + c == a + [','] + (b + [','] + c);
    ParseRangeOfPieces(env, [a, b, c]);
  }

  /** What a non-range input shows: `value || ""`. */
  function InputValue(v: Value): (r: Value)
    ensures Truthy(v) ==> r == v
    ensures !Truthy(v) ==> r == Str("")
  {
    Or(v, Str(""))
  }

  /** What a field of type `ftype` shows for the stored value. */
  datatype Shown = Single(value: Value) | Range(start: string, end: string)

  predicate IsRangeType(ftype: string) {
    ftype == "daterange" || ftype == "datetimerange"
  }

  function Display(env: DateEnv, ftype: string, v: Value): (r: Shown)
    ensures r.Range? <==> IsRangeType(ftype)
    ensures r.Range? ==> (r.start, r.end) == ParseRange(env, v)
    ensures r.Single? ==> r.value == InputValue(v)
  {
    if IsRangeType(ftype) then
      var (start, end) := ParseRange(env, v);
      Range(start, end)
    else
      Single(InputValue(v))
  }

  /** 0 shows as an empty single input but as the start "0" of a range. */
  lemma ZeroDisplay(env: DateEnv)
    ensures Display(env, "text", Num(0)) == Single(Str(""))
    ensures Display(env, "daterange", Num(0)) == Range("0", "")
  {
    assert NatToString(0) == "0";
    assert ToJsString(env, Num(0)) == "0";
    assert Split("0", ',') == ["0"];
    TrimOfTrimmed("0");
  }
}
