/// Shared value types: optional values (Java's nullable references), results of
/// operations that may throw, and the exceptions the parser can raise.
module Basics {

  /// A nullable Java reference: `None` stands for `null`.
  datatype Option<+T> = None | Some(value: T)

  /// The outcome of a Java call that either returns or throws.
  datatype Result<+T> = Ok(value: T) | Err(error: Error)

  /// The exceptions that escape the parsing core.
  datatype Error =
    | NotADescriptor          // Component.parseDescriptorLine: the line does not start with '['
    | NoMatch                 // Component.parseDescriptorLine: the pattern matches nowhere
    | NotAHeader              // Category.parseLine: the line does not end with ':'
    | OrphanComponent         // Document.parseFile: a descriptor before any category header
    | CharIndexOutOfBounds    // Category.isCategoryLine(""): charAt(-1)
    | NullPointer             // Document.getComponentsByCategoryName: a category without a name
}
