/** Value types shared by the whole model: the fixed-width integers the tool
    handles, the properties it reads from the TPM, and the errors it reports. */
module Common {

  /** An unsigned 8-bit value (Go `byte`). */
  newtype byte = x: int | 0 <= x < 0x100

  /** An unsigned 32-bit value (Go `uint32`). */
  newtype uint32 = x: int | 0 <= x < 0x1_0000_0000

  /** The fixed TPM properties the tool reads to identify the device. */
  datatype Property =
    | Manufacturer
    | FirmwareVersion1
    | FirmwareVersion2
    | Revision
    | VendorString1
    | VendorString2
    | VendorString3
    | VendorString4

  /** Every way the tool can fail; each one ends the run. */
  datatype Error =
    | UnknownSortBy(value: string)        // configuration error, raised before the TPM is opened
    | CouldNotOpenTpm                     // the transport could not be opened
    | CapabilityFailed(property: Property) // TPM2_GetCapability itself failed
    | NotTpmProperties(property: Property) // the response did not carry TPM properties
    | MissingProperty(property: Property)  // the response did not carry exactly one property
    | InvalidCount(count: int)            // a hash of a block count outside [0, 16]
    | HashFailed                          // TPM2_Hash failed
    | TpmInfoFailed(cause: Error)         // "could not get TPM info: ..."
    | PerformanceFailed(cause: Error)     // "could not get SHA256 performance: ..."

  datatype Option<T> = None | Some(value: T)

  datatype Result<T> = Ok(value: T) | Err(error: Error)
}
