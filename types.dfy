/** Vocabulary shared by every part of the table schema model. */
module Types {

  /** A pointer that may be null: `None` stands for `nullptr`. */
  datatype Option<+T> = None | Some(value: T)

  /** `tdi_id_t`, an unsigned 32-bit identifier. */
  type Id = x: int | 0 <= x < 0x1_0000_0000

  /** The two `tdi_status_t` values this part of the library returns. */
  datatype Status = Success | ObjectNotFound
}
