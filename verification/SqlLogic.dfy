/** SQL's three-valued logic: a comparison with a null is unknown, and a `where` keeps only true. */
module SqlLogic {
  import opened Wrappers

  datatype Truth = True3 | False3 | Unknown3 {
    function And(other: Truth): Truth {
      if this.False3? || other.False3? then False3
      else if this.Unknown3? || other.Unknown3? then Unknown3
      else True3
    }

    function Or(other: Truth): Truth {
      if this.True3? || other.True3? then True3
      else if this.Unknown3? || other.Unknown3? then Unknown3
      else False3
    }
  }

  function Known(b: bool): Truth {
    if b then True3 else False3
  }

  /** `column = value` */
  function SqlEquals<T(==)>(column: Option<T>, value: T): Truth {
    match column
    case None => Unknown3
    case Some(v) => Known(v == value)
  }

  /** `a < b` */
  function SqlLess(a: Option<int>, b: Option<int>): Truth {
    if a.Some? && b.Some? then Known(a.value < b.value) else Unknown3
  }
}
