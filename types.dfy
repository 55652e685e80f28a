/** Values shared by every part of the node reconciler model. */
module Types {

  datatype Option<+T> = None | Some(value: T)

  /** The outcome of a store call or of a pass: a value, or the error the caller receives. */
  datatype Result<+T> = Ok(value: T) | Err(error: Error)

  /** Errors returned by the object store or by the selector parser. NotFound is the
      only one the reconciler tells apart from the others. */
  datatype Error =
    | NotFound
    | AlreadyExists
    | StoreFailure(reason: string)
    | InvalidSelector(reason: string)

  newtype byte = x: int | 0 <= x < 256

  type StringMap = map<string, string>

  /** The data of a Secret: each value is a byte string. */
  type SecretData = map<string, seq<byte>>

  /** A cluster host, reduced to what the reconciler reads of it. */
  datatype Node = Node(name: string, labels: StringMap, bootID: string)

  /** Namespace and name of a stored object; cluster-scoped objects use the empty namespace. */
  datatype ObjectKey = ObjectKey(namespace: string, name: string)

  /** Name of both the settings ConfigMap and the settings Secret. */
  const SettingsName: string := "wifi-settings"

  /** The hash of a freshly created AccessPoint. */
  const EmptyHash: string := ""
}
