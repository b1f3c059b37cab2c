/** The optional value used wherever the source has a nullable or
    optional field (`T | null`, `field?: T`). */
module Optional {

  datatype Option<+T> = None | Some(value: T)
}
