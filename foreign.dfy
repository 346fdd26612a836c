/**
 * Library calls the handlers make and the model does not open up:
 * the SHA-1 hex digest and the two uses of base64 decoding. Each is a
 * total function handed to the handlers, so every property proved here
 * holds whatever those functions compute.
 */
module Foreign {

  type Byte = b: int | 0 <= b < 256

  datatype Library = Library(
    /** `crypto.createHash('sha1').update(s).digest('hex')` */
    sha1Hex: string -> string,
    /** `Buffer.from(s, 'base64').toString('utf-8')` */
    base64ToText: string -> string,
    /** `Buffer.from(s, 'base64')` */
    base64ToBytes: string -> seq<Byte>)
}
