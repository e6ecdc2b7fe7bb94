/** The JCR property types (the constants of javax.jcr.PropertyType). */
module PropertyTypes {

  datatype PropertyType =
    | Undefined | String | Binary | Long | Double | Date | Boolean
    | Name | Path | Reference | WeakReference | Uri | Decimal
}
