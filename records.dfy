/** The collaborators of FileSet and MetadataGroup, reduced to the fields those
    two classes read or set, plus a few that let two values of one kind differ
    (a group type's name, a metadata element's value, a DocStruct's identity).
    Java objects compared with `equals` become values. */
module Records {

  /** A possibly-null Java reference. */
  datatype Option<+T> = None | Some(value: T)

  /** A Java call that either returns a value or throws. */
  datatype Result<+R, +E> = Success(value: R) | Failure(error: E)

  /** A content file (an image) of a digital document. */
  datatype ContentFile = ContentFile(identifier: string, location: string, mimetype: string)

  /** A presentation-only bundle of file naming information. */
  datatype VirtualFileGroup = VirtualFileGroup(
    name: string,
    fileSuffix: string,
    mimetype: string,
    idSuffix: string,
    pathToFiles: string)

  /** A metadata type of the rule set; `isPerson` marks person-valued types. */
  datatype MetadataType = MetadataType(name: string, isPerson: bool)

  /** A metadata element: its type and its (possibly not yet set) value. */
  datatype Metadata = Metadata(mdType: MetadataType, value: Option<string>)

  /** A person element: its type and its (possibly not yet set) role. */
  datatype Person = Person(mdType: MetadataType, role: Option<string>)

  /** A metadata group type: a name and the ordered list of its member types. */
  datatype MetadataGroupType = MetadataGroupType(name: string, metadataTypeList: seq<MetadataType>)

  /** The document structure node a group belongs to, as an opaque handle. */
  datatype DocStruct = DocStruct(id: nat)

  /** A freshly created `Metadata` of type `t`, as `new Metadata(t)` makes it; its value is taken to be not yet set. */
  function NewMetadata(t: MetadataType): Metadata
  {
    Metadata(t, None)
  }

  /** A freshly created `Person` of type `t`, as `new Person(t)` makes it; its role is not yet set. */
  function NewPerson(t: MetadataType): Person
  {
    Person(t, None)
  }
}
