/**
 * The typed input the pipeline consumes: leaf values, colours and variables,
 * and the transform that turns a variable's per-mode values into either one
 * shared value or a per-theme map.
 */
module Parser {
  import opened Results
  import opened Records

  /** A leaf value: an alias to another variable, a boolean, a string, a number or a colour. */
  datatype Value =
    | Alias(id: string)
    | Bool(boolValue: bool)
    | Str(stringValue: string)
    | Number(numberValue: real)
    | Rgba(r: real, g: real, b: real, a: real)
    | Rgb(r: real, g: real, b: real)
  {
    predicate IsColor() {
      Rgba? || Rgb?
    }

    /** Whether the value's record has an alpha field `a`. */
    predicate HasAlpha() {
      Rgba?
    }
  }

  /** An RGBA or RGB colour. */
  type Color = v: Value | v.IsColor() witness Rgb(0.0, 0.0, 0.0)

  /** A value is exactly one of the six shapes, and only the rgba shape carries an alpha field. */
  lemma ValueShapes(v: Value)
    ensures (if v.Alias? then 1 else 0) + (if v.Bool? then 1 else 0) + (if v.Str? then 1 else 0)
          + (if v.Number? then 1 else 0) + (if v.Rgba? then 1 else 0) + (if v.Rgb? then 1 else 0) == 1
    ensures v.HasAlpha() <==> v.Rgba?
  {
  }

  /**
   * A variable with its id and name path: either shared, with one value, or
   * per-theme, with a value per theme name. `IsShared` is the one flag that
   * the source calls both `isShared` and `isReference`.
   */
  datatype Variable =
    | SharedVariable(id: string, name: seq<string>, value: Value)
    | ThemedVariable(id: string, name: seq<string>, themeValues: Entries<Value>)
  {
    predicate IsShared() {
      SharedVariable?
    }
  }

  /** What the transform guarantees of every variable it builds: a per-theme variable has at least two distinct themes. */
  predicate WellFormedVariable(v: Variable) {
    v.ThemedVariable? ==> |v.themeValues| >= 2 && DistinctKeys(v.themeValues)
  }

  const NoValueError := "A variable must have at least one value"

  /**
   * The variable transform: no mode is an error, exactly one mode gives a
   * shared variable holding that value, and several modes give a per-theme
   * variable whose theme map is the mode map unchanged. The name is the raw
   * name run through the caller's name parser.
   */
  function ToVariable(id: string, rawName: string, nameParser: string -> seq<string>,
                      valuesByMode: Entries<Value>): (r: Result<Variable, string>)
    requires DistinctKeys(valuesByMode)
    ensures r.Err? <==> |valuesByMode| == 0
    ensures r.Err? ==> r.error == NoValueError
    ensures r.Ok? ==> r.value.id == id && r.value.name == nameParser(rawName)
    ensures r.Ok? ==> WellFormedVariable(r.value)
    ensures r.Ok? ==> (r.value.IsShared() <==> |valuesByMode| == 1)
    ensures r.Ok? && r.value.IsShared() ==> r.value.value == valuesByMode[0].1
    ensures r.Ok? && !r.value.IsShared() ==> r.value.themeValues == valuesByMode
  {
    var values := valuesByMode;
    if |values| == 0 then
      Err(NoValueError)
    else if |values| == 1 then
      Ok(SharedVariable(id, nameParser(rawName), values[0].1))
    else
      Ok(ThemedVariable(id, nameParser(rawName), valuesByMode))
  }
}
